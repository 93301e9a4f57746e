/** A trivia question as the question service delivers it, and the answer options
    built from it for display (displayQuestion in script.js). */
module Questions {
  import opened Shuffling

  /** One entry of the service's `results`: the question text, the correct answer and the
      incorrect answers, all still HTML-encoded. Fields the code never reads are not kept. */
  datatype Question = Question(text: string, correctAnswer: string, incorrectAnswers: seq<string>)

  /** The option list before shuffling: the incorrect answers in their order, then the correct one. */
  function Options(q: Question): (r: seq<string>)
    ensures |r| == |q.incorrectAnswers| + 1
    ensures r[..|q.incorrectAnswers|] == q.incorrectAnswers && r[|q.incorrectAnswers|] == q.correctAnswer
    ensures multiset(r) == multiset(q.incorrectAnswers) + multiset{q.correctAnswer}
  {
    q.incorrectAnswers + [q.correctAnswer]
  }

  /** The shuffled option list holds the same answers: one more than the incorrect ones, the
      correct answer among them, and the correct answer exactly once when no incorrect answer
      repeats it. */
  lemma ShuffledOptions(q: Question, js: seq<int>)
    requires ValidChoices(js, |q.incorrectAnswers| + 1)
    ensures |Shuffled(Options(q), js)| == |q.incorrectAnswers| + 1
    ensures multiset(Shuffled(Options(q), js)) == multiset(q.incorrectAnswers) + multiset{q.correctAnswer}
    ensures q.correctAnswer in Shuffled(Options(q), js)
    ensures q.correctAnswer !in q.incorrectAnswers ==> multiset(Shuffled(Options(q), js))[q.correctAnswer] == 1
  {
    ShuffledPermutes(Options(q), js);
    assert q.correctAnswer in multiset(Shuffled(Options(q), js));
  }
}
