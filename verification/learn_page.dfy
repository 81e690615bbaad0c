/**
 * The learn page (src/pages/Learn.tsx): the local lesson list built from the
 * built-in catalogue, the click guard that refuses locked lessons, the
 * completion handler's pass decision, the reward it displays and the level-up
 * check against the level table.
 */
module LearnPage {
  import opened Common
  import Catalogue
  import LevelTable
  import LessonProgress

  /** `lesson-{module}-{day}-{lesson number}`: the page's own lesson id. */
  function LocalId(e: Catalogue.Entry): (id: string)
    requires e.moduleId >= 0 && e.dayNumber >= 0
    ensures IsPrefix("lesson-", id)
  {
    "lesson-" + NatStr(e.moduleId) + "-" + NatStr(e.dayNumber) + "-" + e.lessonNumber
  }

  lemma DashAfter(x: string, y: string)
    ensures |x| < |x + "-" + y| && (x + "-" + y)[|x|] == '-'
  {
  }

  /** Two digit strings, each followed by a dash, can be told apart by where the dash is. */
  lemma SplitAtDash(x: string, y: string, x': string, y': string)
    requires AllDigits(x) && AllDigits(x')
    requires x + "-" + y == x' + "-" + y'
    ensures x == x' && y == y'
  {
    var s := x + "-" + y;
    if |x| < |x'| {
      DashAfter(x, y);
      assert false;
    } else if |x'| < |x| {
      DashAfter(x', y');
      assert false;
    }
    assert x == s[..|x|] == x';
    assert y == s[|x| + 1..] == y';
  }

  /** After the `lesson-` prefix, the id is the module, then the day and lesson number, each after a dash. */
  lemma LocalIdTail(e: Catalogue.Entry)
    requires e.moduleId >= 0 && e.dayNumber >= 0
    ensures |LocalId(e)| >= 7
    ensures LocalId(e)[7..] == NatStr(e.moduleId) + "-" + (NatStr(e.dayNumber) + "-" + e.lessonNumber)
  {
    var m, d := NatStr(e.moduleId), NatStr(e.dayNumber);
    assert LocalId(e) == "lesson-" + (m + "-" + (d + "-" + e.lessonNumber));
  }

  /** The generated id determines module, day and lesson number: distinct lessons never share an id. */
  lemma LocalIdInjective(a: Catalogue.Entry, b: Catalogue.Entry)
    requires a.moduleId >= 0 && a.dayNumber >= 0 && b.moduleId >= 0 && b.dayNumber >= 0
    requires LocalId(a) == LocalId(b)
    ensures a.moduleId == b.moduleId && a.dayNumber == b.dayNumber && a.lessonNumber == b.lessonNumber
  {
    LocalIdTail(a);
    LocalIdTail(b);
    var ma, mb := NatStr(a.moduleId), NatStr(b.moduleId);
    var da, db := NatStr(a.dayNumber), NatStr(b.dayNumber);
    SplitAtDash(ma, da + "-" + a.lessonNumber, mb, db + "-" + b.lessonNumber);
    SplitAtDash(da, a.lessonNumber, db, b.lessonNumber);
    NatStrInjective(a.moduleId, b.moduleId);
    NatStrInjective(a.dayNumber, b.dayNumber);
  }

  /** A lesson as the page lists it: never completed, no progress, current only at the head. */
  datatype LocalLesson = LocalLesson(id: string, entry: Catalogue.Entry, isLocked: bool, isCurrent: bool, isCompleted: bool)

  predicate NonNegativeCodes(cat: seq<Catalogue.Entry>) {
    forall i :: 0 <= i < |cat| ==> cat[i].moduleId >= 0 && cat[i].dayNumber >= 0
  }

  function LocalLessons(cat: seq<Catalogue.Entry>): (r: seq<LocalLesson>)
    requires NonNegativeCodes(cat)
    ensures |r| == |cat|
    ensures forall i :: 0 <= i < |r| ==> r[i].entry == cat[i] && r[i].id == LocalId(cat[i]) && !r[i].isCompleted
    ensures |r| > 0 ==> !r[0].isLocked && r[0].isCurrent
    ensures forall i :: 0 < i < |r| ==> r[i].isLocked == cat[i].isLocked && !r[i].isCurrent
  {
    seq(|cat|, i requires 0 <= i < |cat| =>
      LocalLesson(LocalId(cat[i]), cat[i], if i == 0 then false else cat[i].isLocked, i == 0, false))
  }

  /**
   * With the shipped catalogue exactly one lesson can be opened, the first:
   * the page ignores stored progress, so completing lessons never unlocks more.
   */
  lemma OnlyFirstLessonOpens(i: nat)
    requires i < |Catalogue.Lessons|
    ensures NonNegativeCodes(Catalogue.Lessons)
    ensures LocalLessons(Catalogue.Lessons)[i].isLocked <==> i > 0
  {
    Catalogue.CatalogueChained();
  }

  /** The shipped catalogue yields ten distinct page ids, so the completion handler's lookup is unambiguous. */
  lemma CatalogueIdsDistinct(i: nat, j: nat)
    requires i < j < |Catalogue.Lessons|
    ensures NonNegativeCodes(Catalogue.Lessons)
    ensures LocalLessons(Catalogue.Lessons)[i].id != LocalLessons(Catalogue.Lessons)[j].id
  {
    Catalogue.CatalogueRows();
    Catalogue.CatalogueNumbersDistinct();
    var cat := Catalogue.Lessons;
    assert NonNegativeCodes(cat);
    if LocalLessons(cat)[i].id == LocalLessons(cat)[j].id {
      LocalIdInjective(cat[i], cat[j]);
      assert false;
    }
  }

  /** The lesson handed to the player, with the click handler's `||` defaults applied. */
  datatype PlayerLesson = PlayerLesson(
    id: string, moduleId: int, dayNumber: int, lessonType: string,
    minScoreToPass: int, xpReward: int, coinReward: int, durationMinutes: int)

  /** `handleLessonClick`: a locked lesson is refused, any other is selected. */
  function Click(l: LocalLesson): (r: Option<PlayerLesson>)
    ensures r.None? <==> l.isLocked
    ensures r.Some? ==>
      && r.value.id == l.id
      && r.value.minScoreToPass == OrInt(Some(l.entry.minScoreToPass), 70)
      && r.value.xpReward == OrInt(Some(l.entry.xpReward), 10)
      && r.value.coinReward == OrInt(Some(l.entry.coinReward), 5)
  {
    if l.isLocked then None
    else
      var e := l.entry;
      Some(PlayerLesson(
        l.id, OrInt(Some(e.moduleId), 1), OrInt(Some(e.dayNumber), 1),
        OrStr(Some(e.lessonType), "mixed"),
        OrInt(Some(e.minScoreToPass), 70), OrInt(Some(e.xpReward), 10), OrInt(Some(e.coinReward), 5),
        OrInt(Some(e.durationMinutes), 5)))
  }

  function FindLocal(lessons: seq<LocalLesson>, id: string): (r: Option<LocalLesson>)
    ensures r.Some? ==> r.value in lessons && r.value.id == id
    ensures r.None? ==> forall l :: l in lessons ==> l.id != id
  {
    if |lessons| == 0 then None
    else if lessons[0].id == id then Some(lessons[0])
    else FindLocal(lessons[1..], id)
  }

  /** The reward animation: the lesson's reward, plus 10 XP and 5 coins at 100. */
  function ShownReward(l: LocalLesson, score: int): (r: LessonProgress.Reward)
    ensures score == 100 ==> r.xp == OrInt(Some(l.entry.xpReward), 10) + 10
  {
    var xp := OrInt(Some(l.entry.xpReward), 10);
    var coins := OrInt(Some(l.entry.coinReward), 5);
    if score == 100 then LessonProgress.Reward(xp + 10, coins + 5) else LessonProgress.Reward(xp, coins)
  }

  /**
   * The page's reward formula is the reward engine's formula, applied to the
   * XP and coin values the page holds for the lesson. Whether the engine's
   * store row carries the same values is not part of this model.
   */
  lemma ShownRewardMatchesEngine(l: LocalLesson, score: int)
    ensures ShownReward(l, score)
         == LessonProgress.LessonReward(
              LessonProgress.Lesson(l.id, l.isLocked, Some(l.entry.xpReward), Some(l.entry.coinReward)), score)
  {
  }

  /** The profile columns the level-up check reads. */
  datatype PageProfile = PageProfile(xp: Option<int>, userLevel: Option<int>)

  /** The outcome of `handleCompleteLesson`. */
  datatype Completion = Completion(
    status: LessonProgress.Status,
    reward: Option<LessonProgress.Reward>,
    levelUp: Option<int>,
    cleared: bool)

  /**
   * `handleCompleteLesson` after a lesson has been selected: pass iff the
   * score reaches the lesson's pass mark; the progress write gets completed or
   * in progress; on a pass of a listed lesson the reward is shown and a level
   * up is reported iff the table level for the profile's XP exceeds its stored
   * level. A failed save keeps the selection and shows nothing.
   */
  function Complete(
    table: seq<LevelTable.LevelEntry>, lessons: seq<LocalLesson>, selected: PlayerLesson,
    score: int, profile: Option<PageProfile>, saveFailed: bool): (c: Completion)
    ensures c.status == (if score >= selected.minScoreToPass then LessonProgress.Completed else LessonProgress.InProgress)
    ensures saveFailed ==> c.reward.None? && c.levelUp.None? && !c.cleared
    ensures !saveFailed ==> c.cleared
    ensures c.reward.Some? <==> !saveFailed && score >= selected.minScoreToPass && FindLocal(lessons, selected.id).Some?
    ensures c.reward.Some? ==> c.reward.value == ShownReward(FindLocal(lessons, selected.id).value, score)
    ensures c.levelUp.Some? ==> c.reward.Some? && profile.Some?
    ensures c.levelUp.Some? ==>
              c.levelUp.value == LevelTable.LevelFor(table, OrInt(profile.value.xp, 0))
              && c.levelUp.value > OrInt(profile.value.userLevel, 1)
    ensures c.reward.Some? && profile.Some?
            && LevelTable.LevelFor(table, OrInt(profile.value.xp, 0)) > OrInt(profile.value.userLevel, 1)
            ==> c.levelUp.Some?
  {
    var passed := score >= selected.minScoreToPass;
    var status := if passed then LessonProgress.Completed else LessonProgress.InProgress;
    if saveFailed then Completion(status, None, None, false)
    else
      var found := FindLocal(lessons, selected.id);
      if found.Some? && passed then
        var levelUp :=
          if profile.Some? then
            var current := LevelTable.LevelFor(table, OrInt(profile.value.xp, 0));
            if current > OrInt(profile.value.userLevel, 1) then Some(current) else None
          else None;
        Completion(status, Some(ShownReward(found.value, score)), levelUp, true)
      else
        Completion(status, None, None, true)
  }

  /** A lesson selected from the list is found again by its id when it completes. */
  lemma SelectedLessonIsFound(lessons: seq<LocalLesson>, i: nat)
    requires i < |lessons| && Click(lessons[i]).Some?
    ensures FindLocal(lessons, Click(lessons[i]).value.id).Some?
  {
    assert lessons[i] in lessons;
  }
}
