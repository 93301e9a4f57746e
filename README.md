# Quiz session model

A Dafny model of the browser trivia quiz in `script.js`. The quiz fetches a batch of five
questions from a trivia service. It shows the questions one at a time, with shuffled answer
buttons and a 30-second countdown. It scores clicks on the correct answer. After the last
question it resets the score and fetches a new batch.

The model has four modules, one file each:

- `Shuffling` (`shuffling.dfy`): the in-place Fisher–Yates `shuffleArray`. `ShuffleArray` works
  on an `array` and takes the random indices as a choice sequence `js`. At loop index `i` it
  swaps with `js[i]`, where `0 <= js[i] <= i`. It is proved equal to the function `Shuffled`,
  and `Shuffled` is proved to return a permutation.
- `Questions` (`questions.dfy`): the `Question` record of the service's `results`. It also holds
  the option list `incorrect_answers ++ [correct_answer]` and its properties after shuffling.
- `QuizSteps` (`quiz_steps.dfy`): the session variables as a value, `QuizState`, and one
  function for each handler. The handlers are `fetchQuestions` (its success path),
  `displayQuestion`, `checkAnswer`, `nextQuestion`, one firing of the `startTimer` interval,
  `startTimer` and `resetTimer`. The events that drive the session are option clicks, Next
  clicks, timer firings and batch arrivals. `Step` applies one event and `Run` applies a
  sequence of them. Lemmas about runs state what the code guarantees over many events.
- `Quiz` (`quiz.dfy`): class `QuizSession`. Its fields are the script's module-level variables:
  `questions`, `currentQuestionIndex`, `score`, `timeLeft` and `timerRunning`, which stands for
  `timerInterval`. Three more fields stand for what the page shows: `optionsEnabled` (whether
  the answer buttons are enabled), `options` (the button labels) and `shownCorrect` (the
  correct answer the buttons' click handlers compare with). `fetchRequests` counts the requests
  for questions. Each method updates the fields in place and is proved to produce
  `QuizSteps`' transition of the old state. Two client methods replay scenarios: a correct
  answer after five seconds, and a question left to time out.

The model follows the code as written; in particular:

- There is no "answered" flag. Only disabling the buttons stops a second score
  (`script.js:97`). `CheckAnswer` does nothing while the buttons are disabled.
- `startTimer` never resets `timeLeft`. Only `resetTimer` does, and nothing calls it. So the
  remaining time carries over from question to question and from batch to batch. Once one
  question has timed out, `timeLeft` stays at 0 or below on every reachable path. Every later
  question then times out at its first tick, in this batch and in every later batch
  (`ExpiredTimerSkipsEachQuestion` proves it for the rest of a batch).
- The score and the index are reset in `nextQuestion`, before the new batch is requested.
  They are not reset when the batch arrives.
- A timeout calls `nextQuestion` directly and does not disable the buttons. After the last
  question of a batch times out, its buttons stay enabled while the next batch is pending. A
  click on the correct answer then scores in the new round (`StaleClickAfterTimeoutRollover`).
- HTTP errors, API error codes and an empty `results` are only logged. The code then carries
  on. `displayQuestion` runs inside the `try` of `fetchQuestions`. When no question exists at
  the current index, it clears the buttons and then fails, and the `catch` skips `startTimer`.
  `LoadBatch` models this case: it reports `shown == false`, clears the options and leaves the
  timer as it was. The code has no separate error kinds for fetch failures and no failed state
  to stop in, so the model has none either.

## Model

| member | source | states |
|---|---|---|
| `Shuffling.Swap` | script.js:152 | exchanging two positions keeps the length and the multiset; only positions i and j change |
| `Shuffling.SwapInPlace` | script.js:152 | the destructuring swap leaves the array equal to `Swap` of its old contents |
| `Shuffling.ShuffleArray` | script.js:149-154 | the in-place loop leaves the array equal to `Shuffled` of its old contents, a permutation of them, for any choices with `0 <= js[i] <= i`; only the array is modified |
| `Shuffling.ShuffleDownPermutes` | script.js:150-153 | each run of the loop steps keeps the length and the multiset of the sequence |
| `Shuffling.ShuffleDownKeepsTail` | script.js:150-153 | loop steps below index n never touch positions n and above |
| `Shuffling.ShuffledPermutes` | script.js:149-154 | the shuffle returns a permutation of its input: same length, same multiset |
| `Shuffling.ShuffledLastSlot` | script.js:150-152 | the last slot receives the element at the first random index and keeps it |
| `Shuffling.AnyElementCanBeLast` | script.js:151-152 | for every element there are valid choices that put it in the last slot |
| `Questions.Options` | script.js:70 | the option list is the incorrect answers in order followed by the correct answer: length one more, multiset is incorrect plus correct |
| `Questions.ShuffledOptions` | script.js:70-71 | after shuffling, the options number one more than the incorrect answers and contain the correct answer, exactly once when no incorrect answer equals it |
| `QuizSteps.Initial` | script.js:10-14 | initial state: no questions, index 0, score 0, 30 seconds, no interval, no options on screen and none enabled, one request issued (line 159) |
| `QuizSteps.Displayed` | script.js:63-84 | showing a question enables a permutation of its options, with its correct answer among them; nothing else changes |
| `QuizSteps.TimerStarted` | script.js:124-134 | starting the timer sets the interval and leaves `timeLeft` as it was |
| `QuizSteps.TimerReset` | script.js:136-140 | resetting the timer sets `timeLeft` to 30 and leaves an interval running; nothing else changes |
| `QuizSteps.AnswerChecked` | script.js:86-106 | with the buttons enabled: the score goes up by 1 exactly when selected equals correct, the timer stops and the buttons are disabled; with them disabled nothing changes |
| `QuizSteps.Advanced` | script.js:108-121 | within the batch: index + 1, in range, score kept, next question shown and timer running; past the end: index 0, score 0, one more request, nothing else changed |
| `QuizSteps.Ticked` | script.js:125-133 | a firing decrements `timeLeft` by exactly 1; at 0 or below it clears the interval and performs `nextQuestion`; a cleared interval does nothing |
| `QuizSteps.Loaded` | script.js:17-44 | a batch replaces the questions and keeps index and score; the question at the index is shown and the timer set, or, with no question there, the options are cleared and the timer is not started |
| `QuizSteps.Step` | script.js:17-157 | every event keeps the session valid; the score stays, rises by 1 only on a click, or drops to 0 only at a rollover that requests a new batch |
| `QuizSteps.Run` | script.js:108-133 | any run of events keeps index and score non-negative and the correct answer among the options shown |
| `QuizSteps.ClicksScoreAtMostOnce` | script.js:93-101 | any number of clicks raises the score by at most 1, and by 0 when the buttons are disabled; clicks on disabled buttons change nothing at all |
| `QuizSteps.NextWithinBatch` | script.js:108-113 | each Next inside a batch advances the index by exactly 1 and keeps the score, questions and request count |
| `QuizSteps.BatchRollsOverAfterLastQuestion` | script.js:108-120 | from index i in a batch of n, the first n - i - 1 Next clicks keep the score and reach the last question, and the (n - i)-th resets index and score to 0 and requests a batch |
| `QuizSteps.ExpiredTimerSkipsEachQuestion` | script.js:124-133 | with `timeLeft` already at 0 or below, each firing moves to the next question and the timer restarts without new time |
| `QuizSteps.StaleClickAfterTimeoutRollover` | script.js:114-131 | after the last question times out, a click on its still-enabled correct answer gives score 1 in the new round |
| `Quiz.QuizSession.constructor` | script.js:10-14 | the fields take the initial state of `QuizSteps.Initial` |
| `Quiz.QuizSession.LoadBatch` | script.js:32-39 | performs `Loaded` in place and reports whether the question at the index could be shown |
| `Quiz.QuizSession.DisplayQuestion` | script.js:63-84 | takes the list from `ShuffledOptionList` and performs `Displayed` in place |
| `Quiz.ShuffledOptionList` | script.js:70-71 | the incorrect answers followed by the correct one, copied into a fresh array and shuffled there, equal `Shuffled(Options(q), js)`: one more than the incorrect answers, the correct answer among them |
| `Quiz.QuizSession.CheckAnswer` | script.js:86-106 | performs `AnswerChecked` in place |
| `Quiz.QuizSession.SelectOption` | script.js:79 | a click on button k performs `checkAnswer` with that option and the shown correct answer, as `Step` specifies |
| `Quiz.QuizSession.NextQuestion` | script.js:108-121 | performs `Advanced` in place |
| `Quiz.QuizSession.Tick` | script.js:125-133 | performs `Ticked` in place |
| `Quiz.QuizSession.StartTimer` | script.js:124-134 | performs `TimerStarted` in place |
| `Quiz.QuizSession.ResetTimer` | script.js:136-140 | performs `TimerReset` in place |

## Left out

- The DOM is left out: element lookups, `innerHTML`, button creation, CSS classes, aria labels,
  the Next button's visibility and the highlighting of the selected button (lines 91-96). The
  model keeps only the enabled state of the buttons and their labels. Since the Next button's
  visibility is not modelled, `NextQuestion` may be called at any time.
- The network request, `response.ok`, `response.json()`, the log calls and `handleFetchError`
  with its reload button are I/O and are left out. `LoadBatch` receives the parsed `results`,
  and `fetchRequests` counts the requests issued.
- `setInterval`, `clearInterval` and the one-second period are left out. The timer is the
  `timerRunning` flag plus explicit `Tick` calls. A second interval set while one is running
  can only happen when clicks race a pending fetch. The flag merges the two intervals into one.
  What is lost: in the source the older interval is no longer held in `timerInterval`, so no
  `clearInterval` ever stops it. It keeps decrementing `timeLeft` and calling `nextQuestion`
  once a second, even after an answer. The model has at most one running interval.
- Event-loop ordering between clicks, ticks and fetch completion is left out. Each event is
  one call on the session.
- `Math.random` is replaced by the choice sequence `js`. The uniform distribution of the
  shuffle is not stated. `AnyElementCanBeLast` only shows that no element is excluded from the
  last slot.
- `decodeHtml` uses the browser's entity decoding, which the model does not have. Options are
  compared undecoded, as `checkAnswer` compares them.
- `alert` calls are left out.
- `displayQuestion` with the index out of range fails in the source. `DisplayQuestion` requires
  the index in range. `LoadBatch` models the failure itself.
- Question fields the code never reads (category, type, difficulty) are left out.
