/**
 * The scoring of the exercise player (src/components/exercises/ExercisePlayer.tsx): the
 * question on screen, the answer picked, the verdict, the streak of correct answers, and
 * the counts of correct and of all answers, with the accuracy shown from them.
 *
 * `exercise.generateQuestion()` is the parameter of `GenerateNewQuestion`; rendering and
 * the translated labels are not modelled.
 */
module ExercisePlayer {
  import opened Wrappers
  import opened Exercises

  datatype Verdict = Correct | Incorrect

  /**
   * `Math.round((correctCount / totalAnswered) * 100)`, or 0 before any answer: the
   * percentage rounded to the nearest integer, a half rounded up.
   */
  function Accuracy(correctCount: nat, totalAnswered: nat): (a: nat)
    ensures totalAnswered == 0 ==> a == 0
    ensures totalAnswered > 0 ==>
      -(totalAnswered as int) <= 2 * (100 * correctCount - a * totalAnswered) < totalAnswered
  {
    if totalAnswered > 0 then (200 * correctCount + totalAnswered) / (2 * totalAnswered) else 0
  }

  /** The accuracy is a percentage: 0 with no correct answer, 100 with no wrong one, between otherwise. */
  lemma AccuracyBounds(correctCount: nat, totalAnswered: nat)
    requires correctCount <= totalAnswered
    ensures Accuracy(correctCount, totalAnswered) <= 100
    ensures correctCount == 0 ==> Accuracy(correctCount, totalAnswered) == 0
    ensures 0 < correctCount == totalAnswered ==> Accuracy(correctCount, totalAnswered) == 100
  {
    var a := Accuracy(correctCount, totalAnswered);
    var t := totalAnswered;
    if t > 0 {
      MulMono(101, a, t);
      MulMono(1, a, t);
      MulMono(a, 99, t);
    }
  }

  /** Multiplying by a natural number keeps the order. */
  lemma MulMono(x: int, y: int, t: nat)
    ensures x <= y ==> x * t <= y * t
  {
    if x <= y {
      MulNonNegative(y - x, t);
    }
  }

  lemma {:induction false} MulNonNegative(d: nat, t: nat)
    ensures d * t >= 0
  {
    if t > 0 {
      MulNonNegative(d, t - 1);
    }
  }

  /** The accuracy never falls when a correct answer is added. */
  lemma AccuracyRisesWithCorrect(correctCount: nat, totalAnswered: nat)
    requires correctCount <= totalAnswered
    ensures Accuracy(correctCount, totalAnswered) <= Accuracy(correctCount + 1, totalAnswered + 1)
  {
    var t := totalAnswered;
    var c := correctCount;
    if t > 0 {
      AccuracyBounds(c, t);
      RoundedRises(c, t, Accuracy(c, t), Accuracy(c + 1, t + 1));
    }
  }

  /**
   * The arithmetic of `AccuracyRisesWithCorrect`: `a` rounds 100·c/t and is at most 100,
   * `b` rounds 100·(c+1)/(t+1); then `a <= b`.
   */
  lemma RoundedRises(c: int, t: int, a: int, b: int)
    requires t > 0 && a <= 100
    requires -t <= 2 * (100 * c - a * t)
    requires 2 * (100 * (c + 1) - b * (t + 1)) < t + 1
    ensures a <= b
  {
    if b < a {
      MulMono(b, a - 1, t + 1);
      ShiftedProduct(a, t);
    }
  }

  lemma ShiftedProduct(a: int, t: int)
    ensures (a - 1) * (t + 1) == a * t + a - t - 1
  {
  }

  class Player {
    var currentQuestion: Option<ExerciseQuestion>
    var selectedAnswer: Option<string>
    var feedback: Option<Verdict>
    var streak: nat
    var totalAnswered: nat
    var correctCount: nat

    /** A streak is part of the correct answers, which are part of all answers. */
    ghost predicate Valid()
      reads this
    {
      streak <= correctCount <= totalAnswered
    }

    /** The player before its first question: nothing answered. */
    constructor()
      ensures Valid()
      ensures currentQuestion == None && selectedAnswer == None && feedback == None
      ensures streak == 0 && totalAnswered == 0 && correctCount == 0
    {
      currentQuestion := None;
      selectedAnswer := None;
      feedback := None;
      streak := 0;
      totalAnswered := 0;
      correctCount := 0;
    }

    /** `generateNewQuestion()`: shows the question and clears the pick and the verdict. */
    method GenerateNewQuestion(question: ExerciseQuestion)
      requires Valid()
      modifies this
      ensures Valid()
      ensures currentQuestion == Some(question) && selectedAnswer == None && feedback == None
      ensures streak == old(streak) && totalAnswered == old(totalAnswered)
      ensures correctCount == old(correctCount)
    {
      currentQuestion := Some(question);
      selectedAnswer := None;
      feedback := None;
    }

    /**
     * `handleAnswerSelect(answer)`: once a verdict is shown further picks are ignored;
     * otherwise the pick is scored against the question's correct answer.
     */
    method AnswerSelect(answer: string)
      requires Valid()
      modifies this
      ensures Valid()
      ensures currentQuestion == old(currentQuestion)
      ensures old(feedback).Some? ==>
        selectedAnswer == old(selectedAnswer) && feedback == old(feedback) && streak == old(streak) &&
        correctCount == old(correctCount) && totalAnswered == old(totalAnswered)
      ensures old(feedback).None? ==> selectedAnswer == Some(answer) && totalAnswered == old(totalAnswered) + 1
      ensures old(feedback).None? && currentQuestion.Some? && answer == currentQuestion.value.correctAnswer ==>
        feedback == Some(Correct) && streak == old(streak) + 1 && correctCount == old(correctCount) + 1
      ensures old(feedback).None? && !(currentQuestion.Some? && answer == currentQuestion.value.correctAnswer) ==>
        feedback == Some(Incorrect) && streak == 0 && correctCount == old(correctCount)
    {
      if feedback.Some? {
        return;
      }
      selectedAnswer := Some(answer);
      var isCorrect := currentQuestion.Some? && answer == currentQuestion.value.correctAnswer;
      if isCorrect {
        feedback := Some(Correct);
        streak := streak + 1;
        correctCount := correctCount + 1;
      } else {
        feedback := Some(Incorrect);
        streak := 0;
      }
      totalAnswered := totalAnswered + 1;
    }

    /** The accuracy shown in the header. */
    function ShownAccuracy(): (a: nat)
      reads this
      requires Valid()
      ensures a <= 100
      ensures correctCount == totalAnswered && totalAnswered > 0 ==> a == 100
    {
      AccuracyBounds(correctCount, totalAnswered);
      Accuracy(correctCount, totalAnswered)
    }
  }
}
