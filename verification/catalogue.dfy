/**
 * The built-in catalogue of lessons 1 to 10 (src/data/lessons1to10.ts): the
 * step structure of each lesson's content and the ten catalogue rows. Prose
 * (titles, explanations, speech bubbles, option texts) is not modelled; what
 * is kept is what the rest of the application computes with: step kinds,
 * option ids and correctness, drag-and-drop matches, completion summaries,
 * and the row columns.
 */
module Catalogue {
  import opened Common

  datatype ChoiceOption = ChoiceOption(id: string, isCorrect: bool)
  datatype DragItem = DragItem(id: string, correctMatchId: string)

  /** One screen of a lesson. */
  datatype Step =
    | Intro
    | Explanation
    | MultipleChoice(options: seq<ChoiceOption>)
    | DragDrop(items: seq<DragItem>, targets: seq<string>)
    | Completion(correctAnswers: int, totalQuestions: int, xpEarned: int, coinsEarned: int)

  predicate IsQuestion(s: Step) {
    s.MultipleChoice? || s.DragDrop?
  }

  /** The number of steps that ask the learner something. */
  function QuestionCount(steps: seq<Step>): (n: nat)
    ensures n <= |steps|
  {
    if |steps| == 0 then 0 else (if IsQuestion(steps[0]) then 1 else 0) + QuestionCount(steps[1..])
  }

  /** Counting splits over concatenation. */
  lemma {:induction false} QuestionCountAppend(a: seq<Step>, b: seq<Step>)
    ensures QuestionCount(a + b) == QuestionCount(a) + QuestionCount(b)
  {
    if |a| == 0 {
      assert a + b == b;
    } else {
      assert (a + b)[1..] == a[1..] + b;
      QuestionCountAppend(a[1..], b);
    }
  }

  /** The count is the number of positions holding a question. */
  lemma {:induction false} QuestionCountIsPositions(steps: seq<Step>)
    ensures QuestionCount(steps) == |set i | 0 <= i < |steps| && IsQuestion(steps[i])|
  {
    if |steps| > 0 {
      var n := |steps| - 1;
      var init := steps[..n];
      QuestionCountIsPositions(init);
      assert steps == init + [steps[n]];
      QuestionCountAppend(init, [steps[n]]);
      assert QuestionCount([steps[n]]) == (if IsQuestion(steps[n]) then 1 else 0) by {
        assert [steps[n]][1..] == [];
      }
      var all := set i | 0 <= i < |steps| && IsQuestion(steps[i]);
      var before := set i | 0 <= i < n && IsQuestion(init[i]);
      if IsQuestion(steps[n]) {
        assert all == before + {n};
      } else {
        assert all == before;
      }
    }
  }

  function CorrectCount(options: seq<ChoiceOption>): nat {
    if |options| == 0 then 0 else (if options[0].isCorrect then 1 else 0) + CorrectCount(options[1..])
  }

  /** A question is answerable: one correct option, or each item matched to its own target, as many items as targets. */
  predicate StepWellFormed(s: Step) {
    match s
    case MultipleChoice(options) => |options| == 4 && CorrectCount(options) == 1
    case DragDrop(items, targets) =>
      && |items| > 0 && |items| == |targets|
      && (forall i :: 0 <= i < |items| ==> items[i].correctMatchId in targets)
      && forall i, j :: 0 <= i < j < |items| ==> items[i].correctMatchId != items[j].correctMatchId
    case _ => true
  }

  /**
   * The content shape every lesson follows: an intro first, a completion last
   * and nowhere else, well-formed questions, and a summary that counts every
   * question and pays the row's reward.
   */
  predicate ContentWellFormed(steps: seq<Step>, xpReward: int, coinReward: int) {
    && |steps| >= 2
    && steps[0].Intro?
    && steps[|steps| - 1].Completion?
    && (forall i :: 0 <= i < |steps| - 1 ==> !steps[i].Completion?)
    && (forall i :: 0 <= i < |steps| ==> StepWellFormed(steps[i]))
    && var c := steps[|steps| - 1];
       c.totalQuestions == QuestionCount(steps) == c.correctAnswers
       && c.xpEarned == xpReward && c.coinsEarned == coinReward
  }

  function Mc(correct: string): Step {
    MultipleChoice([
      ChoiceOption("a", correct == "a"), ChoiceOption("b", correct == "b"),
      ChoiceOption("c", correct == "c"), ChoiceOption("d", correct == "d")])
  }

  const Lesson1Content: seq<Step> := [Intro, Explanation, Mc("b"), Mc("b"), Completion(2, 2, 10, 5)]
  const Lesson2Content: seq<Step> := [
    Intro, Explanation,
    DragDrop(
      [DragItem("1", "AAPL"), DragItem("2", "TSLA"), DragItem("3", "MSFT"), DragItem("4", "AMZN")],
      ["AAPL", "TSLA", "MSFT", "AMZN"]),
    Mc("a"), Completion(2, 2, 10, 5)]
  const Lesson3Content: seq<Step> := [Intro, Explanation, Mc("b"), Mc("a"), Completion(2, 2, 10, 5)]
  const Lesson4Content: seq<Step> := [Intro, Explanation, Mc("a"), Mc("a"), Completion(2, 2, 10, 5)]
  const Lesson5Content: seq<Step> := [Intro, Explanation, Mc("a"), Mc("a"), Completion(2, 2, 10, 5)]
  const Lesson6Content: seq<Step> := [Intro, Explanation, Mc("a"), Mc("a"), Completion(2, 2, 10, 5)]
  const Lesson7Content: seq<Step> := [Intro, Explanation, Mc("a"), Mc("a"), Completion(2, 2, 10, 5)]
  const Lesson8Content: seq<Step> := [Intro, Explanation, Mc("a"), Mc("a"), Completion(2, 2, 15, 10)]
  const Lesson9Content: seq<Step> := [Intro, Explanation, Mc("a"), Mc("a"), Completion(2, 2, 10, 5)]
  const Lesson10Content: seq<Step> := [
    Intro, Explanation, Explanation, Mc("a"), Explanation, Explanation, Mc("a"), Completion(2, 2, 20, 15)]

  /** `lessonContentToJSONB`: the content is stored as it is. */
  function ToJsonb(content: seq<Step>): (r: seq<Step>)
    ensures |r| == |content| && forall i :: 0 <= i < |r| ==> r[i] == content[i]
  {
    content
  }

  /** One row of `lessons1to10Data`. */
  datatype Entry = Entry(
    moduleId: int,
    dayNumber: int,
    lessonNumber: string,
    lessonType: string,
    content: seq<Step>,
    minScoreToPass: int,
    xpReward: int,
    coinReward: int,
    isLocked: bool,
    unlockRequirement: Option<string>,
    durationMinutes: int,
    level: string,
    orderIndex: int)

  function Row(day: int, number: string, content: seq<Step>, xp: int, coins: int, previous: Option<string>, minutes: int, order: int): Entry {
    Entry(1, day, number, "mixed", ToJsonb(content), 70, xp, coins,
      previous.Some?, if previous.Some? then Some("complete_lesson_" + previous.value) else None,
      minutes, "beginner", order)
  }

  const Lessons: seq<Entry> := [
    Row(1, "1.1", Lesson1Content, 10, 5, None, 5, 1),
    Row(1, "1.2", Lesson2Content, 10, 5, Some("1.1"), 5, 2),
    Row(1, "1.3", Lesson3Content, 10, 5, Some("1.2"), 6, 3),
    Row(1, "1.4", Lesson4Content, 10, 5, Some("1.3"), 6, 4),
    Row(2, "2.1", Lesson5Content, 10, 5, Some("1.4"), 7, 5),
    Row(2, "2.2", Lesson6Content, 10, 5, Some("2.1"), 6, 6),
    Row(2, "2.3", Lesson7Content, 10, 5, Some("2.2"), 7, 7),
    Row(2, "2.4", Lesson8Content, 15, 10, Some("2.3"), 8, 8),
    Row(2, "2.5", Lesson9Content, 10, 5, Some("2.4"), 6, 9),
    Row(2, "2.6", Lesson10Content, 20, 15, Some("2.5"), 10, 10)]

  /** The chain of unlock requirements: each row after the first names its predecessor. */
  predicate ChainedRows(rows: seq<Entry>) {
    && (forall i :: 0 <= i < |rows| ==> rows[i].orderIndex == i + 1)
    && (forall i :: 0 <= i < |rows| ==> (rows[i].isLocked <==> i > 0))
    && (|rows| > 0 ==> rows[0].unlockRequirement.None?)
    && (forall i :: 0 < i < |rows| ==>
          rows[i].unlockRequirement == Some("complete_lesson_" + rows[i - 1].lessonNumber))
  }

  /** Every four-option question built by `Mc` with a valid answer id has exactly one correct option. */
  lemma {:induction false} McWellFormed(correct: string)
    requires correct in {"a", "b", "c", "d"}
    ensures StepWellFormed(Mc(correct))
  {
    var o := Mc(correct).options;
    assert o[1..][1..][1..][1..] == [];
    assert CorrectCount(o[1..][1..][1..]) == (if correct == "d" then 1 else 0);
    assert CorrectCount(o[1..][1..]) == (if correct in {"c", "d"} then 1 else 0);
  }

  /** The shape of lessons 1 to 9: intro, explanation, two questions, completion. */
  lemma {:induction false} TwoQuestionContent(q1: Step, q2: Step, xp: int, coins: int)
    requires IsQuestion(q1) && IsQuestion(q2) && StepWellFormed(q1) && StepWellFormed(q2)
    ensures ContentWellFormed([Intro, Explanation, q1, q2, Completion(2, 2, xp, coins)], xp, coins)
  {
    var s := [Intro, Explanation, q1, q2, Completion(2, 2, xp, coins)];
    assert s[1..][1..][1..][1..][1..] == [];
    assert QuestionCount(s[1..][1..][1..][1..]) == 0;
    assert QuestionCount(s[1..][1..][1..]) == 1;
    assert QuestionCount(s[1..][1..]) == 2;
    assert QuestionCount(s[1..]) == 2;
  }

  /** The shape of lesson 10: intro, four explanations around two questions, completion. */
  lemma {:induction false} LongContent(q1: Step, q2: Step, xp: int, coins: int)
    requires IsQuestion(q1) && IsQuestion(q2) && StepWellFormed(q1) && StepWellFormed(q2)
    ensures ContentWellFormed([Intro, Explanation, Explanation, q1, Explanation, Explanation, q2, Completion(2, 2, xp, coins)], xp, coins)
  {
    var s := [Intro, Explanation, Explanation, q1, Explanation, Explanation, q2, Completion(2, 2, xp, coins)];
    var t := s[1..][1..][1..][1..];
    assert t[1..][1..][1..][1..] == [];
    assert QuestionCount(t[1..][1..][1..]) == 0;
    assert QuestionCount(t[1..][1..]) == 1;
    assert QuestionCount(t[1..]) == 1;
    assert QuestionCount(t) == 1;
    assert QuestionCount(s[1..][1..][1..]) == 2;
    assert QuestionCount(s[1..][1..]) == 2;
    assert QuestionCount(s[1..]) == 2;
  }

  lemma DragDropWellFormed()
    ensures StepWellFormed(Lesson2Content[2])
  {
  }

  lemma ContentsWellFormed()
    ensures ContentWellFormed(Lesson1Content, 10, 5)
    ensures ContentWellFormed(Lesson2Content, 10, 5)
    ensures ContentWellFormed(Lesson3Content, 10, 5)
    ensures ContentWellFormed(Lesson4Content, 10, 5)
    ensures ContentWellFormed(Lesson5Content, 10, 5)
    ensures ContentWellFormed(Lesson6Content, 10, 5)
    ensures ContentWellFormed(Lesson7Content, 10, 5)
    ensures ContentWellFormed(Lesson8Content, 15, 10)
    ensures ContentWellFormed(Lesson9Content, 10, 5)
    ensures ContentWellFormed(Lesson10Content, 20, 15)
  {
    McWellFormed("a");
    McWellFormed("b");
    DragDropWellFormed();
    TwoQuestionContent(Mc("b"), Mc("b"), 10, 5);
    TwoQuestionContent(Lesson2Content[2], Mc("a"), 10, 5);
    TwoQuestionContent(Mc("b"), Mc("a"), 10, 5);
    TwoQuestionContent(Mc("a"), Mc("a"), 10, 5);
    TwoQuestionContent(Mc("a"), Mc("a"), 15, 10);
    LongContent(Mc("a"), Mc("a"), 20, 15);
  }

  /** The catalogue as shipped: ten rows in order, only the first unlocked, each requiring its predecessor. */
  lemma CatalogueChained()
    ensures |Lessons| == 10
    ensures ChainedRows(Lessons)
  {
  }

  /** Every row is a module-1 beginner lesson with a pass mark of 70. */
  lemma CatalogueRows()
    ensures forall i :: 0 <= i < |Lessons| ==>
              Lessons[i].moduleId == 1 && Lessons[i].minScoreToPass == 70 && Lessons[i].level == "beginner"
  {
  }

  /** Every row's content is well formed and its completion summary pays the row's own reward. */
  lemma CatalogueContents()
    ensures forall i :: 0 <= i < |Lessons| ==>
              ContentWellFormed(Lessons[i].content, Lessons[i].xpReward, Lessons[i].coinReward)
  {
    ContentsWellFormed();
    RowsOneTwo();
    RowsThreeFour();
    RowsFiveSix();
    RowsSevenEight();
    RowsNineTen();
  }

  /** The rows two at a time: each pair carries its lessons' contents with their rewards. */
  lemma RowsOneTwo()
    requires ContentWellFormed(Lesson1Content, 10, 5) && ContentWellFormed(Lesson2Content, 10, 5)
    ensures forall i :: 0 <= i < 2 ==>
              ContentWellFormed(Lessons[i].content, Lessons[i].xpReward, Lessons[i].coinReward)
  {
  }

  lemma RowsThreeFour()
    requires ContentWellFormed(Lesson3Content, 10, 5) && ContentWellFormed(Lesson4Content, 10, 5)
    ensures forall i :: 2 <= i < 4 ==>
              ContentWellFormed(Lessons[i].content, Lessons[i].xpReward, Lessons[i].coinReward)
  {
  }

  lemma RowsFiveSix()
    requires ContentWellFormed(Lesson5Content, 10, 5) && ContentWellFormed(Lesson6Content, 10, 5)
    ensures forall i :: 4 <= i < 6 ==>
              ContentWellFormed(Lessons[i].content, Lessons[i].xpReward, Lessons[i].coinReward)
  {
  }

  lemma RowsSevenEight()
    requires ContentWellFormed(Lesson7Content, 10, 5) && ContentWellFormed(Lesson8Content, 15, 10)
    ensures forall i :: 6 <= i < 8 ==>
              ContentWellFormed(Lessons[i].content, Lessons[i].xpReward, Lessons[i].coinReward)
  {
  }

  lemma RowsNineTen()
    requires ContentWellFormed(Lesson9Content, 10, 5) && ContentWellFormed(Lesson10Content, 20, 15)
    ensures forall i :: 8 <= i < 10 ==>
              ContentWellFormed(Lessons[i].content, Lessons[i].xpReward, Lessons[i].coinReward)
  {
  }

  /** No two rows share a lesson number. */
  lemma CatalogueNumbersDistinct()
    ensures forall i, j :: 0 <= i < j < |Lessons| ==> Lessons[i].lessonNumber != Lessons[j].lessonNumber
  {
  }
}
