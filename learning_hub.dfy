/** The learning hub's quiz: the score of the chosen answers, the 70% pass
    mark, the list of completed lessons (kept in local storage) and when the
    quiz can be submitted. */
module LearningHub {
  import opened Lessons

  /** `quizAnswers`: the chosen option per question index. */
  type Answers = map<int, int>

  /** Question `i` was answered with its right option. */
  predicate AnsweredRight(quiz: seq<Question>, answers: Answers, i: int)
    requires 0 <= i < |quiz|
  {
    i in answers && answers[i] == quiz[i].correct
  }

  /** The `reduce` in `handleQuizSubmit`, over the first `n` questions. */
  function Score(quiz: seq<Question>, answers: Answers, n: nat): nat
    requires n <= |quiz|
  {
    if n == 0 then 0
    else Score(quiz, answers, n - 1) + (if AnsweredRight(quiz, answers, n - 1) then 1 else 0)
  }

  /** The questions among the first `n` answered right. */
  function RightSet(quiz: seq<Question>, answers: Answers, n: nat): set<int>
    requires n <= |quiz|
  {
    set i | 0 <= i < n && AnsweredRight(quiz, answers, i)
  }

  /** The score counts the questions answered right, so it lies between 0
      and the number of questions. */
  lemma {:induction false} ScoreCounts(quiz: seq<Question>, answers: Answers, n: nat)
    requires n <= |quiz|
    ensures Score(quiz, answers, n) == |RightSet(quiz, answers, n)|
    ensures Score(quiz, answers, n) <= n
  {
    if n > 0 {
      ScoreCounts(quiz, answers, n - 1);
      var before := RightSet(quiz, answers, n - 1);
      if AnsweredRight(quiz, answers, n - 1) {
        assert RightSet(quiz, answers, n) == before + {n - 1};
      } else {
        assert RightSet(quiz, answers, n) == before;
      }
    }
  }

  /** The score the results panel shows: the answered keys whose answer is
      right (every key is a question index). */
  function ShownScore(quiz: seq<Question>, answers: Answers): nat
    requires forall k :: k in answers ==> 0 <= k < |quiz|
  {
    |set k | k in answers && answers[k] == quiz[k].correct|
  }

  /** The panel shows the score the pass mark was judged on. */
  lemma ShownScoreAgrees(quiz: seq<Question>, answers: Answers)
    requires forall k :: k in answers ==> 0 <= k < |quiz|
    ensures ShownScore(quiz, answers) == Score(quiz, answers, |quiz|)
  {
    ScoreCounts(quiz, answers, |quiz|);
    assert (set k | k in answers && answers[k] == quiz[k].correct) == RightSet(quiz, answers, |quiz|);
  }

  /** `score >= lesson.quiz.length * 0.7`. */
  predicate Passed(score: int, questions: int)
  {
    score as real >= questions as real * 0.7
  }

  /** The pass mark in whole numbers: ten times the score reaches seven times
      the number of questions, so a one-question quiz needs its answer right
      and an empty quiz always passes. */
  lemma PassedSpec(score: int, questions: int)
    ensures Passed(score, questions) <==> 10 * score >= 7 * questions
    ensures Passed(0, 0) && !Passed(0, 1) && Passed(1, 1)
  {
  }

  /** The submit button is enabled once every question has an answer. */
  predicate SubmitEnabled(quiz: seq<Question>, answers: Answers)
  {
    |answers.Keys| == |quiz|
  }

  /** The question indices `0..n-1`. */
  ghost function Indices(n: nat): (r: set<int>)
    ensures |r| == n
    ensures forall k :: k in r <==> 0 <= k < n
  {
    if n == 0 then {} else Indices(n - 1) + {n - 1}
  }

  /** With answers only for questions of the quiz, the button is enabled
      exactly when every question has an answer. */
  lemma SubmitEnabledIff(quiz: seq<Question>, answers: Answers)
    requires forall k :: k in answers ==> 0 <= k < |quiz|
    ensures SubmitEnabled(quiz, answers) <==> forall i :: 0 <= i < |quiz| ==> i in answers
  {
    var all := Indices(|quiz|);
    assert answers.Keys <= all;
    if forall i :: 0 <= i < |quiz| ==> i in answers {
      assert answers.Keys == all;
    }
    if SubmitEnabled(quiz, answers) {
      assert all == answers.Keys + (all - answers.Keys);
      forall i | 0 <= i < |quiz| ensures i in answers {
        assert i in all;
      }
    }
  }

  predicate NoDuplicates(s: seq<string>)
  {
    forall i, j :: 0 <= i < j < |s| ==> s[i] != s[j]
  }

  /** The hub's state. */
  class Hub {
    var completedLessons: seq<string>
    var stored: seq<string>
    var quizAnswers: Answers
    var showResults: bool

    /** The hub starts from what local storage holds. */
    constructor(saved: seq<string>)
      ensures completedLessons == saved && stored == saved && quizAnswers == map[] && !showResults
    {
      completedLessons := saved;
      stored := saved;
      quizAnswers := map[];
      showResults := false;
    }

    /** `isCompleted(lessonId)`. */
    predicate IsCompleted(lessonId: string)
      reads this
    {
      lessonId in completedLessons
    }

    /** `handleQuizSubmit` for the selected lesson: a passed quiz adds the
        lesson once to the completed list and to storage; the results show
        either way. */
    method SubmitQuiz(lesson: Lesson)
      modifies this
      ensures showResults && quizAnswers == old(quizAnswers)
      ensures var passed := Passed(Score(lesson.quiz, quizAnswers, |lesson.quiz|), |lesson.quiz|);
        completedLessons == (if passed && lesson.id !in old(completedLessons)
                             then old(completedLessons) + [lesson.id] else old(completedLessons))
        && stored == (if passed && lesson.id !in old(completedLessons) then completedLessons else old(stored))
      ensures NoDuplicates(old(completedLessons)) ==> NoDuplicates(completedLessons)
      ensures Passed(Score(lesson.quiz, quizAnswers, |lesson.quiz|), |lesson.quiz|) ==> IsCompleted(lesson.id)
    {
      var score := Score(lesson.quiz, quizAnswers, |lesson.quiz|);
      var passed := score as real >= |lesson.quiz| as real * 0.7;
      if passed && !IsCompleted(lesson.id) {
        var updated := completedLessons + [lesson.id];
        completedLessons := updated;
        stored := updated;
      }
      showResults := true;
    }
  }
}
