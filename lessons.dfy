/** The financial lessons, each closed by a multiple-choice quiz, and their
    lookups.  The lesson text, icon and badge are not modelled. */
module Lessons {
  import opened Common
  import opened Lists

  /** A question: its options and the index of the right one. */
  datatype Question = Question(options: seq<string>, correct: int)

  datatype Lesson = Lesson(id: string, title: string, category: string,
                           difficulty: string, duration: int, quiz: seq<Question>)

  /** `LESSONS`. */
  const LessonTable: seq<Lesson> := [
    Lesson("budgeting_basics", "Budgeting Basics", "fundamentals", "beginner", 5, [
      Question(["10%", "20%", "30%", "50%"], 1),
      Question(["Netflix subscription", "Rent payment", "Concert tickets", "Designer clothes"], 1)]),
    Lesson("emergency_fund", "Emergency Fund Essentials", "fundamentals", "beginner", 7, [
      Question(["1-2 months", "3-6 months", "12 months", "24 months"], 1)]),
    Lesson("compound_interest", "The Magic of Compound Interest", "investing", "intermediate", 10, [
      Question(["Only initial investment", "Initial + accumulated interest", "Only new deposits", "None"], 1)]),
    Lesson("smart_goals", "Setting SMART Financial Goals", "planning", "beginner", 6, [
      Question(["I want to be rich", "Save money for future", "Save ₹1 lakh in 10 months",
                "Buy expensive things"], 2)]),
    Lesson("debt_management", "Debt Management Strategies", "fundamentals", "intermediate", 8, [
      Question(["Smallest balance", "Highest interest rate", "Newest debt", "Largest balance"], 1)]),
    Lesson("investing_101", "Investing 101", "investing", "intermediate", 12, [
      Question(["Investing all money in one stock", "Spreading investments across different assets",
                "Only buying bonds", "Timing the market"], 1)]),
    Lesson("sip_mutual_funds", "SIP & Mutual Funds", "investing", "intermediate", 8, [
      Question(["Savings Investment Plan", "Systematic Investment Plan", "Secure Interest Plan",
                "Single Installment Payment"], 1)]),
    Lesson("risk_management", "Advanced Risk Management", "investing", "advanced", 15, [
      Question(["Market trends only", "Friends advice", "Age and risk appetite",
                "Past performance only"], 2)])
  ]

  /** A question whose right answer is one of its options. */
  predicate WellFormedQuestion(q: Question)
  {
    0 <= q.correct < |q.options|
  }

  /** Every lesson has a distinct id and a quiz of at least one question, and
      every question's answer index points into its options. */
  lemma LessonTableWellFormed()
    ensures |LessonTable| == 8
    ensures forall i, j :: 0 <= i < j < |LessonTable| ==> LessonTable[i].id != LessonTable[j].id
    ensures forall i :: 0 <= i < |LessonTable| ==> |LessonTable[i].quiz| >= 1
    ensures forall i, k :: 0 <= i < |LessonTable| && 0 <= k < |LessonTable[i].quiz| ==>
      WellFormedQuestion(LessonTable[i].quiz[k])
  {
  }

  /** `getLessonById(id)`. */
  function LessonById(id: string): Option<Lesson>
  {
    Find(LessonTable, (l: Lesson) => l.id == id)
  }

  /** The lookup finds the lesson carrying the id, and nothing for any other
      id. */
  lemma LessonByIdSpec(id: string)
    ensures LessonById(id).None? <==> forall i :: 0 <= i < |LessonTable| ==> LessonTable[i].id != id
    ensures forall i :: 0 <= i < |LessonTable| && LessonTable[i].id == id ==> LessonById(id) == Some(LessonTable[i])
  {
    LessonTableWellFormed();
    forall i | 0 <= i < |LessonTable| && LessonTable[i].id == id
      ensures LessonById(id) == Some(LessonTable[i])
    {
      FindUnique(LessonTable, (l: Lesson) => l.id == id, i);
    }
  }

  /** `getLessonsByCategory(category)`. */
  function LessonsByCategory(category: string): seq<Lesson>
  {
    Filter(LessonTable, (l: Lesson) => l.category == category)
  }

  /** `getLessonsByDifficulty(difficulty)`. */
  function LessonsByDifficulty(difficulty: string): seq<Lesson>
  {
    Filter(LessonTable, (l: Lesson) => l.difficulty == difficulty)
  }

  /** Exactly the lessons of that category, in table order. */
  lemma LessonsByCategorySpec(category: string)
    ensures forall l :: l in LessonsByCategory(category) <==> l in LessonTable && l.category == category
    ensures SubsequenceOf(LessonsByCategory(category), LessonTable)
  {
    FilterMembers(LessonTable, (l: Lesson) => l.category == category);
  }

  /** Exactly the lessons of that difficulty, in table order. */
  lemma LessonsByDifficultySpec(difficulty: string)
    ensures forall l :: l in LessonsByDifficulty(difficulty) <==> l in LessonTable && l.difficulty == difficulty
    ensures SubsequenceOf(LessonsByDifficulty(difficulty), LessonTable)
  {
    FilterMembers(LessonTable, (l: Lesson) => l.difficulty == difficulty);
  }
}
