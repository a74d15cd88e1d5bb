/** The quiz page: its score keeping and the state its handlers step through. */
module QuizSession {
  import opened Wrappers
  import QuizApi
  import opened Numbers

  /** `QuizStats`. */
  datatype Stats = Stats(correct: nat, total: nat, streak: nat, bestStreak: nat)

  const ZeroStats := Stats(0, 0, 0, 0)

  /** The score invariant: the streak is never above the best streak, which is never above the number right, which is never above the number answered. */
  predicate StatsValid(s: Stats) {
    s.streak <= s.bestStreak <= s.correct <= s.total
  }

  /**
   * The functional update of `handleAnswerSelect`: one more answer, one more
   * right only when it was right, the streak grows by one or drops to zero,
   * and the best streak never falls and never lags the streak.
   */
  function Scored(prev: Stats, correct: bool): (next: Stats)
    ensures next.total == prev.total + 1
    ensures next.correct == if correct then prev.correct + 1 else prev.correct
    ensures next.streak == if correct then prev.streak + 1 else 0
    ensures next.bestStreak >= prev.bestStreak && next.bestStreak >= next.streak
    ensures next.bestStreak == prev.bestStreak || next.bestStreak == next.streak
    ensures StatsValid(prev) ==> StatsValid(next)
  {
    var newStreak := if correct then prev.streak + 1 else 0;
    Stats(prev.correct + (if correct then 1 else 0), prev.total + 1, newStreak, Max(prev.bestStreak, newStreak))
  }

  /** The stats after a sequence of answers (true = right), from a fresh start. */
  function Replay(answers: seq<bool>): Stats {
    if answers == [] then ZeroStats else Scored(Replay(answers[..|answers| - 1]), answers[|answers| - 1])
  }

  function CountRight(answers: seq<bool>): nat {
    if answers == [] then 0 else CountRight(answers[..|answers| - 1]) + (if answers[|answers| - 1] then 1 else 0)
  }

  predicate AllRight(answers: seq<bool>, i: int, j: int)
    requires 0 <= i <= j <= |answers|
  {
    forall k :: i <= k < j ==> answers[k]
  }

  /** A run of `len` right answers starts at position `i`. */
  predicate RunAt(answers: seq<bool>, i: int, len: nat) {
    0 <= i && i + len <= |answers| && AllRight(answers, i, i + len)
  }

  /** The length of the run of right answers at the end. */
  function TrailingRun(answers: seq<bool>): (n: nat)
    ensures n <= |answers|
  {
    if answers == [] || !answers[|answers| - 1] then 0 else TrailingRun(answers[..|answers| - 1]) + 1
  }

  lemma {:induction false} TrailingRunIsLongestSuffix(answers: seq<bool>)
    ensures AllRight(answers, |answers| - TrailingRun(answers), |answers|)
    ensures forall i :: 0 <= i <= |answers| && AllRight(answers, i, |answers|) ==> |answers| - i <= TrailingRun(answers)
  {
    if answers != [] {
      var init := answers[..|answers| - 1];
      TrailingRunIsLongestSuffix(init);
      forall i | 0 <= i <= |answers| && AllRight(answers, i, |answers|)
        ensures |answers| - i <= TrailingRun(answers)
      {
        if i < |answers| {
          assert AllRight(init, i, |init|) by {
            forall k | i <= k < |init| ensures init[k] { assert init[k] == answers[k]; }
          }
        }
      }
    }
  }

  /**
   * Replaying answers from zero: `total` counts them, `correct` counts the
   * right ones, `streak` is the trailing run of right answers, and
   * `bestStreak` is the longest run of right answers anywhere.
   */
  lemma {:induction false} ReplayMeaning(answers: seq<bool>)
    ensures var s := Replay(answers);
      && s.total == |answers|
      && s.correct == CountRight(answers)
      && s.streak == TrailingRun(answers)
      && StatsValid(s)
      && (forall i, j :: 0 <= i <= j <= |answers| && AllRight(answers, i, j) ==> j - i <= s.bestStreak)
      && (exists i :: RunAt(answers, i, s.bestStreak))
  {
    var s := Replay(answers);
    if answers == [] {
      assert RunAt(answers, 0, 0);
    } else {
      var n := |answers|;
      var init := answers[..n - 1];
      assert forall k :: 0 <= k < n - 1 ==> init[k] == answers[k];
      ReplayMeaning(init);
      TrailingRunIsLongestSuffix(answers);
      var prev := Replay(init);
      forall i, j | 0 <= i <= j <= n && AllRight(answers, i, j) ensures j - i <= s.bestStreak {
        if j == n {
          assert j - i <= TrailingRun(answers);
        } else {
          assert AllRight(init, i, j);
        }
      }
      if s.bestStreak == prev.bestStreak {
        var i :| RunAt(init, i, prev.bestStreak);
        assert RunAt(answers, i, s.bestStreak);
      } else {
        assert RunAt(answers, n - s.bestStreak, s.bestStreak);
      }
    }
  }

  /** The page's state: the questions fetched so far, the index shown, the chosen answer and whether its result is shown. */
  class Quiz {
    var questions: seq<QuizApi.QuizQuestion>
    var currentQuestionIndex: nat
    var selectedAnswer: Option<string>
    var showResult: bool
    var isCorrect: bool
    var stats: Stats

    /** The score invariant holds, and an answer is selected exactly while its result is shown. */
    ghost predicate Valid()
      reads this
    {
      StatsValid(stats) && (selectedAnswer.Some? <==> showResult)
    }

    /** `questions[currentQuestionIndex]`, which is `undefined` past the end. */
    function CurrentQuestion(): (q: Option<QuizApi.QuizQuestion>)
      reads this
      ensures q.Some? <==> currentQuestionIndex < |questions|
      ensures q.Some? ==> q.value == questions[currentQuestionIndex]
    {
      if currentQuestionIndex < |questions| then Some(questions[currentQuestionIndex]) else None
    }

    constructor ()
      ensures Valid()
      ensures questions == [] && currentQuestionIndex == 0 && selectedAnswer == None
      ensures !showResult && !isCorrect && stats == ZeroStats
    {
      questions := [];
      currentQuestionIndex := 0;
      selectedAnswer := None;
      showResult := false;
      isCorrect := false;
      stats := ZeroStats;
    }

    /**
     * `handleStartQuiz` as written: clears the questions, goes back to the
     * first one and zeroes the score (the fetch it then issues is I/O), but
     * keeps the chosen answer and the shown result. A restart while a result
     * is shown (the type select and the length slider stay usable) therefore
     * keeps the result latched over the new first question.
     */
    method StartQuizAsWritten()
      requires Valid()
      modifies this
      ensures Valid()
      ensures questions == [] && currentQuestionIndex == 0 && stats == ZeroStats
      ensures selectedAnswer == old(selectedAnswer) && showResult == old(showResult) && isCorrect == old(isCorrect)
    {
      questions := [];
      currentQuestionIndex := 0;
      stats := ZeroStats;
    }

    /** `handleStartQuiz` as intended: a fresh quiz, with no answer chosen and no result shown. */
    method StartQuiz()
      requires Valid()
      modifies this
      ensures Valid()
      ensures questions == [] && currentQuestionIndex == 0 && stats == ZeroStats
      ensures selectedAnswer == None && !showResult && !isCorrect
    {
      questions := [];
      currentQuestionIndex := 0;
      stats := ZeroStats;
      selectedAnswer := None;
      showResult := false;
      isCorrect := false;
    }

    /** `handleAnswerSelect`: ignored while a result is shown or when there is no current question; otherwise scores the answer once. */
    method SelectAnswer(answer: string)
      requires Valid()
      modifies this
      ensures Valid()
      ensures questions == old(questions) && currentQuestionIndex == old(currentQuestionIndex)
      ensures old(showResult) || old(CurrentQuestion()).None? ==>
        selectedAnswer == old(selectedAnswer) && showResult == old(showResult) &&
        isCorrect == old(isCorrect) && stats == old(stats)
      ensures !old(showResult) && old(CurrentQuestion()).Some? ==>
        var right := answer == old(CurrentQuestion()).value.correctAnswer;
        selectedAnswer == Some(answer) && showResult && isCorrect == right && stats == Scored(old(stats), right)
    {
      var question := CurrentQuestion();
      if showResult || question.None? {
        return;
      }
      selectedAnswer := Some(answer);
      var correct := answer == question.value.correctAnswer;
      isCorrect := correct;
      showResult := true;
      stats := Scored(stats, correct);
    }

    /** `handleNextQuestion`: clears the answer, moves on by one and asks for more questions exactly when the new index reaches the end of the list. */
    method NextQuestion() returns (fetchMore: bool)
      requires Valid()
      modifies this
      ensures Valid()
      ensures currentQuestionIndex == old(currentQuestionIndex) + 1
      ensures fetchMore <==> currentQuestionIndex == |questions|
      ensures selectedAnswer == None && !showResult
      ensures questions == old(questions) && stats == old(stats) && isCorrect == old(isCorrect)
    {
      selectedAnswer := None;
      showResult := false;
      var nextIndex := currentQuestionIndex + 1;
      fetchMore := nextIndex == |questions|;
      currentQuestionIndex := nextIndex;
    }

    /** A successful fetch appends the new questions after those already there. */
    method QuestionsFetched(fetched: seq<QuizApi.QuizQuestion>)
      requires Valid()
      modifies this
      ensures Valid()
      ensures questions == old(questions) + fetched
      ensures currentQuestionIndex == old(currentQuestionIndex) && selectedAnswer == old(selectedAnswer)
      ensures showResult == old(showResult) && isCorrect == old(isCorrect) && stats == old(stats)
    {
      questions := questions + fetched;
    }
  }

  /** Answering twice without moving on scores once: the second answer is ignored. */
  method AnswerTwice(quiz: Quiz, first: string, second: string)
    requires quiz.Valid() && !quiz.showResult && quiz.CurrentQuestion().Some?
    modifies quiz
    ensures quiz.stats == Scored(old(quiz.stats), first == old(quiz.CurrentQuestion()).value.correctAnswer)
    ensures quiz.selectedAnswer == Some(first)
  {
    quiz.SelectAnswer(first);
    quiz.SelectAnswer(second);
  }

  /**
   * Restarting, as written, while a result is shown: the new first question
   * arrives, its answer is ignored, and "Next Question" moves past it, so the
   * first question of the new quiz is never scored.
   */
  method RestartWhileResultShown(quiz: Quiz, fetched: seq<QuizApi.QuizQuestion>, answer: string) returns (fetchMore: bool)
    requires quiz.Valid() && quiz.showResult && |fetched| > 1
    modifies quiz
    ensures quiz.Valid()
    ensures quiz.questions == fetched && quiz.currentQuestionIndex == 1 && !fetchMore
    ensures quiz.stats == ZeroStats
  {
    quiz.StartQuizAsWritten();
    quiz.QuestionsFetched(fetched);
    quiz.SelectAnswer(answer);
    assert quiz.stats == ZeroStats;
    fetchMore := quiz.NextQuestion();
  }

  /** Restarting with the intended `StartQuiz` at the same moment: the first answer of the new quiz is scored. */
  method RestartThenAnswer(quiz: Quiz, fetched: seq<QuizApi.QuizQuestion>, answer: string)
    requires quiz.Valid() && |fetched| > 0
    modifies quiz
    ensures quiz.Valid()
    ensures quiz.questions == fetched && quiz.currentQuestionIndex == 0
    ensures quiz.showResult && quiz.selectedAnswer == Some(answer)
    ensures quiz.stats == Scored(ZeroStats, answer == fetched[0].correctAnswer)
  {
    quiz.StartQuiz();
    quiz.QuestionsFetched(fetched);
    quiz.SelectAnswer(answer);
  }
}
