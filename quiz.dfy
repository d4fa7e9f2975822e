/**
  The quiz page: six lessons of eight one-click questions, answered at most
  once each, scored, and graded at the end by a rounded percentage.
 */
module Quiz {
  import opened Wrappers

  // ---------------------------------------------------------------------------
  // The lessons and the question bank

  datatype Level = Beginner | Intermediate | Advanced

  /** A lesson card; titles and descriptions are not modelled. */
  datatype Lesson = Lesson(id: int, level: Level)

  /** The `lessons` array (app/quiz/page.tsx, lines 34-71). */
  const Lessons: seq<Lesson> := [
    Lesson(1, Beginner), Lesson(2, Beginner), Lesson(3, Intermediate),
    Lesson(4, Intermediate), Lesson(5, Advanced), Lesson(6, Intermediate)
  ]

  /** A question as far as scoring sees it: how many options it offers and the
      index of the right one. The wording is not modelled. */
  datatype QuizQuestion = QuizQuestion(id: nat, optionCount: nat, correctAnswer: int)

  /** A lesson's questions, numbered from 1, each with four options, from the
      list of their correct answers. */
  function FourWay(answers: seq<int>): (qs: seq<QuizQuestion>)
    ensures |qs| == |answers|
    ensures forall i :: 0 <= i < |qs| ==> qs[i] == QuizQuestion(i + 1, 4, answers[i])
  {
    seq(|answers|, i requires 0 <= i < |answers| => QuizQuestion(i + 1, 4, answers[i]))
  }

  /** `questions[lesson]`: the `questions` record (app/quiz/page.tsx, lines
      73-567) has the keys 1 to 6; any other key is `undefined`. */
  function Bank(lesson: int): Option<seq<QuizQuestion>> {
    if lesson == 1 then Some(FourWay([1, 0, 1, 0, 2, 1, 0, 3]))
    else if lesson == 2 then Some(FourWay([1, 1, 2, 0, 0, 0, 1, 0]))
    else if lesson == 3 then Some(FourWay([2, 1, 1, 0, 2, 0, 0, 1]))
    else if lesson == 4 then Some(FourWay([0, 1, 1, 0, 0, 0, 1, 0]))
    else if lesson == 5 then Some(FourWay([0, 2, 0, 3, 0, 3, 0, 0]))
    else if lesson == 6 then Some(FourWay([1, 0, 1, 0, 0, 0, 0, 0]))
    else None
  }

  /** Every lesson card leads to a bank of eight questions, each with four
      options and a correct answer among them; no other key has a bank. */
  lemma BankShape(lesson: int)
    ensures Bank(lesson).Some? <==> exists k :: 0 <= k < |Lessons| && Lessons[k].id == lesson
    ensures Bank(lesson).Some? ==>
      var qs := Bank(lesson).value;
      && |qs| == 8
      && forall i :: 0 <= i < |qs| ==>
           qs[i].id == i + 1 && qs[i].optionCount == 4 && 0 <= qs[i].correctAnswer < qs[i].optionCount
  {
    if 1 <= lesson <= 6 {
      assert Lessons[lesson - 1].id == lesson;
    }
  }

  // ---------------------------------------------------------------------------
  // Answers

  /** How many entries of `answered` are true. */
  function CountTrue(s: seq<bool>): (n: nat)
    ensures n <= |s|
  {
    if s == [] then 0 else (if s[0] then 1 else 0) + CountTrue(s[1..])
  }

  /** `new Array(n).fill(false)`. */
  function AllFalse(n: nat): (s: seq<bool>)
    ensures |s| == n && forall i :: 0 <= i < n ==> !s[i]
  {
    seq(n, i => false)
  }

  lemma {:induction false} CountAllFalse(s: seq<bool>)
    requires forall i :: 0 <= i < |s| ==> !s[i]
    ensures CountTrue(s) == 0
  {
    if s != [] {
      CountAllFalse(s[1..]);
    }
  }

  /** Marking an unanswered question answered adds exactly one to the count;
      marking an answered one again adds nothing. */
  lemma {:induction false} CountMark(s: seq<bool>, i: nat)
    requires i < |s|
    ensures CountTrue(s[i := true]) == CountTrue(s) + (if s[i] then 0 else 1)
  {
    if i > 0 {
      CountMark(s[1..], i - 1);
      assert s[i := true][1..] == s[1..][i - 1 := true];
    } else {
      assert s[i := true][1..] == s[1..];
    }
  }

  // ---------------------------------------------------------------------------
  // Grading

  /** `Math.round((score / total) * 100)`: half-way values round up. */
  function Percentage(score: nat, total: nat): int
    requires total > 0
  {
    (200 * score + total) / (2 * total)
  }

  /** The percentage is the nearest whole number to 100 × score / total, a
      half rounding up: p - 1/2 <= 100 × score / total < p + 1/2. */
  lemma PercentageRounds(score: nat, total: nat)
    requires total > 0
    ensures var p := Percentage(score, total);
      total * (2 * p - 1) <= 200 * score < total * (2 * p + 1)
  {
    var p := Percentage(score, total);
    var r := (200 * score + total) % (2 * total);
    assert 200 * score + total == 2 * total * p + r;
    assert total * (2 * p - 1) == 2 * total * p - total;
    assert total * (2 * p + 1) == 2 * total * p + total;
  }

  lemma MulMono(t: nat, a: int, b: int)
    requires a <= b
    ensures t * a <= t * b
  {
    assert t * b - t * a == t * (b - a);
  }

  /** A score between none and all gives a percentage between 0 and 100, with
      the ends exact. */
  lemma PercentageBounds(score: nat, total: nat)
    requires 0 < total && score <= total
    ensures 0 <= Percentage(score, total) <= 100
    ensures Percentage(0, total) == 0 && Percentage(total, total) == 100
  {
    var p := Percentage(score, total);
    PercentageRounds(score, total);
    if p > 100 {
      MulMono(total, 201, 2 * p - 1);
    } else if p < 0 {
      MulMono(total, 2 * p + 1, -1);
    }
    var z := Percentage(0, total);
    PercentageRounds(0, total);
    if z > 0 {
      MulMono(total, 1, 2 * z - 1);
    } else if z < 0 {
      MulMono(total, 2 * z + 1, -1);
    }
    var f := Percentage(total, total);
    PercentageRounds(total, total);
    if f > 100 {
      MulMono(total, 201, 2 * f - 1);
    } else if f < 100 {
      MulMono(total, 2 * f + 1, 199);
    }
  }

  datatype Grade = Excellent | GoodJob | KeepPracticing

  /** The message on the completion screen (app/quiz/page.tsx, lines 699-703). */
  function GradeOf(percentage: int): Grade {
    if percentage >= 80 then Excellent
    else if percentage >= 60 then GoodJob
    else KeepPracticing
  }

  /** A percentage of at least `k` is a score of at least k - 1/2 per cent. */
  lemma AtLeast(score: nat, total: nat, k: int)
    requires total > 0
    ensures Percentage(score, total) >= k <==> 200 * score >= (2 * k - 1) * total
  {
    var p := Percentage(score, total);
    PercentageRounds(score, total);
    if p >= k {
      MulMono(total, 2 * k - 1, 2 * p - 1);
    } else {
      MulMono(total, 2 * p + 1, 2 * k - 1);
    }
  }

  /** The thresholds in terms of the score: "Excellent" from 79.5 per cent up,
      "Good job" from 59.5 per cent up, as the rounding makes them. */
  lemma GradeThresholds(score: nat, total: nat)
    requires total > 0
    ensures GradeOf(Percentage(score, total)) == Excellent <==> 200 * score >= 159 * total
    ensures GradeOf(Percentage(score, total)) == KeepPracticing <==> 200 * score < 119 * total
  {
    AtLeast(score, total, 80);
    AtLeast(score, total, 60);
  }

  /** With eight questions: 7 or 8 right is excellent, 5 or 6 a good job, and
      4 or fewer calls for more practice. */
  lemma EightQuestionGrades(score: nat)
    requires score <= 8
    ensures GradeOf(Percentage(score, 8)) ==
      if score >= 7 then Excellent else if score >= 5 then GoodJob else KeepPracticing
  {
    GradeThresholds(score, 8);
  }

  // ---------------------------------------------------------------------------
  // The page state

  class QuizSession {
    var selectedLesson: Option<int>
    var currentQuestion: nat
    var score: nat
    var answered: seq<bool>
    var selectedOption: Option<int>
    var showResult: bool
    var quizCompleted: bool

    /** Without a lesson everything is at its start; with one, `answered` has
        an entry per question and the index is on a question. Each point of
        the score is an answered question. */
    predicate Valid()
      reads this
    {
      && (selectedLesson.None? ==> currentQuestion == 0 && score == 0)
      && (selectedLesson.Some? ==>
            Bank(selectedLesson.value).Some? &&
            |answered| == |Bank(selectedLesson.value).value| &&
            currentQuestion < |answered|)
      && score <= CountTrue(answered)
    }

    /** The number of questions in the selected lesson. */
    function Total(): nat
      reads this
      requires Valid() && selectedLesson.Some?
    {
      |Bank(selectedLesson.value).value|
    }

    constructor ()
      ensures Valid()
      ensures selectedLesson == None && currentQuestion == 0 && score == 0 && answered == []
      ensures selectedOption == None && !showResult && !quizCompleted
    {
      selectedLesson := None;
      currentQuestion := 0;
      score := 0;
      answered := [];
      selectedOption := None;
      showResult := false;
      quizCompleted := false;
    }

    /** `handleLessonSelect`, followed by the effect it triggers, which gives
        `answered` one false entry per question of the lesson. The page calls
        it from the lesson cards only, so the lesson has a bank. */
    method SelectLesson(lessonId: int)
      requires Bank(lessonId).Some?
      modifies this
      ensures Valid()
      ensures selectedLesson == Some(lessonId) && currentQuestion == 0 && score == 0
      ensures answered == AllFalse(|Bank(lessonId).value|)
      ensures selectedOption == None && !showResult && !quizCompleted
    {
      selectedLesson := Some(lessonId);
      currentQuestion := 0;
      score := 0;
      showResult := false;
      quizCompleted := false;
      selectedOption := None;
      // useEffect on selectedLesson
      answered := AllFalse(|Bank(lessonId).value|);
      CountAllFalse(answered);
    }

    /** `handleAnswerSelect`: ignored without a lesson or on a question already
        answered; otherwise the question is marked answered and the score rises
        by one exactly when the option is the correct one. */
    method AnswerSelect(optionIndex: int)
      requires Valid()
      modifies this
      ensures Valid()
      ensures old(selectedLesson.None? || answered[currentQuestion]) ==>
        && selectedOption == old(selectedOption) && answered == old(answered) && score == old(score)
        && showResult == old(showResult)
      ensures old(selectedLesson.Some? && !answered[currentQuestion]) ==>
        && selectedOption == Some(optionIndex)
        && answered == old(answered)[currentQuestion := true]
        && score == old(score) +
             (if optionIndex == old(Bank(selectedLesson.value).value[currentQuestion].correctAnswer) then 1 else 0)
        && showResult
      ensures selectedLesson == old(selectedLesson) && currentQuestion == old(currentQuestion)
      ensures quizCompleted == old(quizCompleted)
    {
      if selectedLesson.None? || answered[currentQuestion] {
        return;
      }
      selectedOption := Some(optionIndex);
      var currentQ := Bank(selectedLesson.value).value[currentQuestion];
      var isCorrect := optionIndex == currentQ.correctAnswer;
      CountMark(answered, currentQuestion);
      answered := answered[currentQuestion := true];
      if isCorrect {
        score := score + 1;
      }
      showResult := true;
    }

    /** `handleNextQuestion`: on to the next question and clear the choice, or
        complete the quiz at the last one. */
    method NextQuestion()
      requires Valid()
      modifies this
      ensures Valid()
      ensures old(selectedLesson.None?) ==>
        currentQuestion == old(currentQuestion) && selectedOption == old(selectedOption) &&
        showResult == old(showResult) && quizCompleted == old(quizCompleted)
      ensures old(selectedLesson.Some?) && old(currentQuestion) + 1 < old(Total()) ==>
        currentQuestion == old(currentQuestion) + 1 && selectedOption == None && !showResult &&
        quizCompleted == old(quizCompleted)
      ensures old(selectedLesson.Some?) && old(currentQuestion) + 1 >= old(Total()) ==>
        currentQuestion == old(currentQuestion) && quizCompleted &&
        selectedOption == old(selectedOption) && showResult == old(showResult)
      ensures selectedLesson == old(selectedLesson) && score == old(score) && answered == old(answered)
    {
      if selectedLesson.None? {
        return;
      }
      if currentQuestion < |Bank(selectedLesson.value).value| - 1 {
        currentQuestion := currentQuestion + 1;
        selectedOption := None;
        showResult := false;
      } else {
        quizCompleted := true;
      }
    }

    /** `handleRestartQuiz`: back to the lesson list with everything reset. */
    method RestartQuiz()
      modifies this
      ensures Valid()
      ensures selectedLesson == None && currentQuestion == 0 && score == 0 && answered == []
      ensures selectedOption == None && !showResult && !quizCompleted
    {
      selectedLesson := None;
      currentQuestion := 0;
      score := 0;
      answered := [];
      selectedOption := None;
      showResult := false;
      quizCompleted := false;
    }

    /** The "Retry This Lesson" button of the completion screen: the same
        lesson from its first question, with nothing answered. */
    method Retry()
      requires Valid() && selectedLesson.Some?
      modifies this
      ensures Valid()
      ensures selectedLesson == old(selectedLesson) && currentQuestion == 0 && score == 0
      ensures answered == AllFalse(old(Total()))
      ensures selectedOption == None && !showResult && !quizCompleted
    {
      var totalQuestions := |Bank(selectedLesson.value).value|;
      quizCompleted := false;
      currentQuestion := 0;
      score := 0;
      answered := AllFalse(totalQuestions);
      CountAllFalse(answered);
      selectedOption := None;
      showResult := false;
    }
  }
}
