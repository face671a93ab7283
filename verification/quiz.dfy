/** Taking an assessment: recording answers, moving to the next question,
    and the rounded percentage score with its pass verdict. */
module Quiz {
  import opened Wrappers
  import Numbers

  datatype Question = Question(id: string, correctOption: int)

  /** The answers array of the component. Writing past its end leaves holes,
      which read as undefined; both are None here. */
  type Answers = seq<Option<int>>

  function AnswerAt(answers: Answers, i: nat): Option<int> {
    if i < |answers| then answers[i] else None
  }

  predicate IsCorrect(qs: seq<Question>, answers: Answers, i: nat)
    requires i < |qs|
  {
    AnswerAt(answers, i) == Some(qs[i].correctOption)
  }

  /** The indices of the questions answered correctly. */
  function CorrectIndices(qs: seq<Question>, answers: Answers): set<nat> {
    set i: nat | i < |qs| && IsCorrect(qs, answers, i)
  }

  /** The number of questions whose recorded answer is the correct option;
      an unanswered question is never correct. */
  function CorrectCount(qs: seq<Question>, answers: Answers): (c: nat)
    ensures c == |CorrectIndices(qs, answers)|
    ensures c <= |qs|
    ensures c == |qs| <==> forall i :: 0 <= i < |qs| ==> IsCorrect(qs, answers, i)
    ensures c == 0 <==> forall i :: 0 <= i < |qs| ==> !IsCorrect(qs, answers, i)
    decreases |qs|
  {
    if |qs| == 0 then
      assert CorrectIndices(qs, answers) == {};
      0
    else
      var init := qs[..|qs| - 1];
      assert forall i :: 0 <= i < |init| ==> (IsCorrect(init, answers, i) <==> IsCorrect(qs, answers, i));
      CorrectIndicesStep(qs, answers);
      CorrectCount(init, answers) + (if IsCorrect(qs, answers, |qs| - 1) then 1 else 0)
  }

  /** The correct indices of a quiz are those of all but its last question,
      plus the last one when it is answered correctly. */
  lemma CorrectIndicesStep(qs: seq<Question>, answers: Answers)
    requires |qs| > 0
    ensures var init, last := qs[..|qs| - 1], |qs| - 1;
      last !in CorrectIndices(init, answers)
      && CorrectIndices(qs, answers)
         == CorrectIndices(init, answers) + (if IsCorrect(qs, answers, last) then {last} else {})
  {
    var init := qs[..|qs| - 1];
    assert forall i :: 0 <= i < |init| ==> (IsCorrect(init, answers, i) <==> IsCorrect(qs, answers, i));
  }

  /** Nobody who answered nothing scores a correct answer. */
  lemma NoAnswersNoneCorrect(qs: seq<Question>)
    ensures CorrectCount(qs, []) == 0
  {
  }

  /** `Math.round(correct / n * 100)`; None (NaN) for a quiz with no questions. */
  function FinalScore(correct: nat, n: nat): (r: Option<nat>)
    requires correct <= n
    ensures n == 0 <==> r.None?
    ensures r.Some? ==> r.value <= 100 && 2 * r.value * n <= 200 * correct + n < 2 * r.value * n + 2 * n
  {
    if n == 0 then None
    else
      Numbers.RoundAtMost(100 * correct, n, 100);
      Some(Numbers.RoundHalfUp(100 * correct, n))
  }

  /** All correct scores 100, none correct scores 0. */
  lemma FinalScoreExtremes(n: nat)
    requires n > 0
    ensures FinalScore(n, n) == Some(100)
    ensures FinalScore(0, n) == Some(0)
  {
    Numbers.RoundExact(100, n);
    Numbers.RoundExact(0, n);
  }

  /** One more correct answer never lowers the score. */
  lemma FinalScoreMonotone(c1: nat, c2: nat, n: nat)
    requires c1 <= c2 <= n && n > 0
    ensures FinalScore(c1, n).value <= FinalScore(c2, n).value
  {
    Numbers.RoundMonotone(100 * c1, 100 * c2, n);
  }

  datatype QuizResult = QuizResult(score: Option<nat>, passed: bool)

  /** `submitQuiz`'s local scoring: the rounded percentage of correct
      answers, passed exactly when it reaches the passing score. */
  function SubmitQuiz(qs: seq<Question>, answers: Answers, passingScore: int): (r: QuizResult)
    ensures r.score == FinalScore(CorrectCount(qs, answers), |qs|)
    ensures r.passed <==> r.score.Some? && r.score.value >= passingScore
  {
    var score := FinalScore(CorrectCount(qs, answers), |qs|);
    QuizResult(score, score.Some? && score.value >= passingScore)
  }

  /** `handleAnswer`: records the chosen option at the current question and
      changes no other answer. */
  function SetAnswer(answers: Answers, index: nat, option: int): (r: Answers)
    ensures |r| == if index < |answers| then |answers| else index + 1
    ensures AnswerAt(r, index) == Some(option)
    ensures forall j: nat :: j != index ==> AnswerAt(r, j) == AnswerAt(answers, j)
  {
    if index < |answers| then answers[index := Some(option)]
    else answers + seq(index - |answers|, _ => None) + [Some(option)]
  }

  datatype Step = MoveTo(index: nat) | Submit

  /** `handleNext`: moves to the following question, or submits on the last. */
  function Next(current: nat, n: nat): (r: Step)
    ensures current + 1 < n ==> r == MoveTo(current + 1)
    ensures current + 1 >= n ==> r == Submit
  {
    if current < n - 1 then MoveTo(current + 1) else Submit
  }

  /** Navigation never leaves the question list. */
  lemma NextStaysInRange(current: nat, n: nat)
    requires current < n
    ensures Next(current, n).MoveTo? ==> Next(current, n).index < n
    ensures current == n - 1 ==> Next(current, n) == Submit
  {
  }
}
