/**
 * The sequential lesson sequencer and reward engine of the lesson-progress
 * hook (src/hooks/useLessonProgress.ts): annotating the ordered lesson list
 * with completed / locked / current flags, computing the progress row written
 * for an attempt, and the rewards, level, streak and counters written to the
 * profile on a first completion. Store reads become parameters, store writes
 * become returned records.
 */
module LessonProgress {
  import opened Common
  import LevelTable

  datatype Status = NotStarted | InProgress | Completed | Mastered

  /** `completed` and `mastered` both count as done. */
  predicate IsDone(s: Status) {
    s == Completed || s == Mastered
  }

  /** A row of the lessons table, as far as this flow reads it. */
  datatype Lesson = Lesson(id: string, isLocked: bool, xpReward: Option<int>, coinReward: Option<int>)

  /** A row of the per-user progress table; timestamps and dates are day or tick numbers. */
  datatype ProgressRow = ProgressRow(
    rowId: string,
    lessonId: string,
    status: Status,
    score: Option<int>,
    timeSpent: Option<int>,
    attempts: Option<int>,
    completedAt: Option<int>,
    lastAccessed: int)

  // ---------------------------------------------------------------------------
  // Lesson annotation (fetchLessons)

  /** The progress map built by `forEach(p => map.set(p.lesson_id, p))`: the last row per lesson wins. */
  function ProgressMap(rows: seq<ProgressRow>): (m: map<string, ProgressRow>)
    ensures forall i :: 0 <= i < |rows| ==> rows[i].lessonId in m
    ensures forall k :: k in m ==> m[k].lessonId == k && m[k] in rows
    ensures forall i :: 0 <= i < |rows| && (forall j :: i < j < |rows| ==> rows[j].lessonId != rows[i].lessonId)
              ==> m[rows[i].lessonId] == rows[i]
  {
    if |rows| == 0 then map[]
    else
      var m := ProgressMap(rows[..|rows| - 1]);
      var last := rows[|rows| - 1];
      assert forall i :: 0 <= i < |rows| - 1 ==> rows[i] == rows[..|rows| - 1][i];
      m[last.lessonId := last]
  }

  /** The lesson with this id has a progress row that is completed or mastered. */
  predicate DoneIn(m: map<string, ProgressRow>, id: string) {
    id in m && IsDone(m[id].status)
  }

  datatype Annotated = Annotated(
    lesson: Lesson,
    progress: Option<ProgressRow>,
    isCompleted: bool,
    isLocked: bool,
    isCurrent: bool)

  /** The flags of lesson `i`, following the branch structure of the source's map callback. */
  function AnnotateAt(lessons: seq<Lesson>, m: map<string, ProgressRow>, i: nat): Annotated
    requires i < |lessons|
  {
    var id := lessons[i].id;
    var progress := if id in m then Some(m[id]) else None;
    var isCompleted := DoneIn(m, id);
    var isLocked :=
      if i == 0 then false
      else if progress.Some? && isCompleted then false
      else !DoneIn(m, lessons[i - 1].id);
    var isCurrent := !isLocked && !isCompleted && forall j :: 0 <= j < i ==> DoneIn(m, lessons[j].id);
    Annotated(lessons[i], progress, isCompleted, isLocked, isCurrent)
  }

  /**
   * The annotated list: same length and order as the lessons; the stored lock
   * flag is never consulted; a lesson is locked exactly when it is not the
   * first, not itself done, and its predecessor is not done.
   */
  function Annotate(lessons: seq<Lesson>, m: map<string, ProgressRow>): (r: seq<Annotated>)
    ensures |r| == |lessons|
    ensures forall i :: 0 <= i < |r| ==> r[i].lesson == lessons[i]
    ensures forall i :: 0 <= i < |r| ==> (r[i].isCompleted <==> DoneIn(m, lessons[i].id))
    ensures forall i :: 0 <= i < |r| ==> (r[i].progress.Some? <==> lessons[i].id in m)
    ensures |r| > 0 ==> !r[0].isLocked
    ensures forall i :: 0 < i < |r| ==>
              (r[i].isLocked <==> !DoneIn(m, lessons[i].id) && !DoneIn(m, lessons[i - 1].id))
  {
    seq(|lessons|, i requires 0 <= i < |lessons| => AnnotateAt(lessons, m, i))
  }

  /** `lessonsData.slice(0, i).every(done)`, as a recursive scan. */
  predicate PrefixDone(lessons: seq<Lesson>, m: map<string, ProgressRow>, i: nat)
    requires i <= |lessons|
  {
    i == 0 || (PrefixDone(lessons, m, i - 1) && DoneIn(m, lessons[i - 1].id))
  }

  lemma {:induction false} PrefixDoneMeansAll(lessons: seq<Lesson>, m: map<string, ProgressRow>, i: nat)
    requires i <= |lessons|
    ensures PrefixDone(lessons, m, i) <==> forall j :: 0 <= j < i ==> DoneIn(m, lessons[j].id)
  {
    if i > 0 {
      PrefixDoneMeansAll(lessons, m, i - 1);
    }
  }

  /**
   * The current lesson is exactly the first lesson that is not done: being the
   * first not-done lesson already makes it unlocked.
   */
  lemma CurrentIsFirstIncomplete(lessons: seq<Lesson>, m: map<string, ProgressRow>, i: nat)
    requires i < |lessons|
    ensures Annotate(lessons, m)[i].isCurrent <==> !DoneIn(m, lessons[i].id) && PrefixDone(lessons, m, i)
  {
    PrefixDoneMeansAll(lessons, m, i);
  }

  /** At most one lesson is current. */
  lemma AtMostOneCurrent(lessons: seq<Lesson>, m: map<string, ProgressRow>, i: nat, j: nat)
    requires i < |lessons| && j < |lessons|
    requires Annotate(lessons, m)[i].isCurrent && Annotate(lessons, m)[j].isCurrent
    ensures i == j
  {
    CurrentIsFirstIncomplete(lessons, m, i);
    CurrentIsFirstIncomplete(lessons, m, j);
    PrefixDoneMeansAll(lessons, m, i);
    PrefixDoneMeansAll(lessons, m, j);
  }

  /** Unless every lesson is done, some lesson is current. */
  lemma {:induction false} SomeCurrentUnlessAllDone(lessons: seq<Lesson>, m: map<string, ProgressRow>, k: nat)
    requires k < |lessons| && !DoneIn(m, lessons[k].id)
    ensures exists i :: 0 <= i <= k && Annotate(lessons, m)[i].isCurrent
    decreases k
  {
    PrefixDoneMeansAll(lessons, m, k);
    if PrefixDone(lessons, m, k) {
      CurrentIsFirstIncomplete(lessons, m, k);
    } else {
      var j :| 0 <= j < k && !DoneIn(m, lessons[j].id);
      SomeCurrentUnlessAllDone(lessons, m, j);
    }
  }

  /** The lock flag stored on the lesson row never influences the annotation's flags. */
  lemma StoredLockIgnored(lessons: seq<Lesson>, lessons': seq<Lesson>, m: map<string, ProgressRow>, i: nat)
    requires |lessons| == |lessons'| && i < |lessons|
    requires forall j :: 0 <= j < |lessons| ==> lessons'[j] == lessons[j].(isLocked := lessons'[j].isLocked)
    ensures Annotate(lessons, m)[i].isLocked == Annotate(lessons', m)[i].isLocked
    ensures Annotate(lessons, m)[i].isCurrent == Annotate(lessons', m)[i].isCurrent
  {
    assert forall j :: 0 <= j < |lessons| ==> lessons'[j].id == lessons[j].id;
    PrefixDoneMeansAll(lessons, m, i);
    PrefixDoneMeansAll(lessons', m, i);
    CurrentIsFirstIncomplete(lessons, m, i);
    CurrentIsFirstIncomplete(lessons', m, i);
  }

  // ---------------------------------------------------------------------------
  // The progress write of updateProgress

  /**
   * The fields of one progress write. A `None` field is not part of the write:
   * an update leaves that column as it was, an insert leaves it to the store.
   */
  datatype ProgressPatch = ProgressPatch(
    lessonId: string,
    status: Status,
    lastAccessed: int,
    score: Option<int>,
    timeSpent: Option<int>,
    completedAt: Option<int>,
    attempts: Option<int>)

  datatype ProgressWrite = Insert(patch: ProgressPatch) | Update(rowId: string, patch: ProgressPatch)

  /**
   * What the existence query returns for the stored row. The query of the
   * source selects only the row id, so `status` is `None` there.
   */
  datatype Selected = Selected(id: string, status: Option<Status>)

  /** The existence query as written: `select('id')`. */
  function SelectIdOnly(stored: Option<ProgressRow>): (s: Option<Selected>)
    ensures s.Some? <==> stored.Some?
    ensures s.Some? ==> s.value.id == stored.value.rowId && s.value.status.None?
  {
    if stored.Some? then Some(Selected(stored.value.rowId, None)) else None
  }

  /** The existence query with the status column also selected. */
  function SelectWithStatus(stored: Option<ProgressRow>): (s: Option<Selected>)
    ensures s.Some? <==> stored.Some?
    ensures s.Some? ==> s.value.id == stored.value.rowId && s.value.status == Some(stored.value.status)
  {
    if stored.Some? then Some(Selected(stored.value.rowId, Some(stored.value.status))) else None
  }

  /** `existing?.status === 'completed' || existing?.status === 'mastered'`. */
  predicate WasAlreadyCompleted(existing: Option<Selected>) {
    existing.Some? && existing.value.status.Some? && IsDone(existing.value.status.value)
  }

  datatype UpdateOutcome = UpdateOutcome(write: ProgressWrite, awardRequested: bool)

  /**
   * The write and the reward decision of one `updateProgress` call, given what
   * the existence query returned and the stored attempts count.
   */
  function UpdateWith(
    existing: Option<Selected>, storedAttempts: Option<int>,
    lessonId: string, status: Status, score: Option<int>, timeSpent: Option<int>, now: int): (o: UpdateOutcome)
    ensures o.write.Insert? <==> existing.None?
    ensures o.write.Update? ==> o.write.rowId == existing.value.id
    ensures o.write.patch.lessonId == lessonId && o.write.patch.status == status
    ensures o.write.patch.lastAccessed == now
    ensures o.write.patch.score == score && o.write.patch.timeSpent == timeSpent
    ensures o.write.patch.completedAt.Some? <==> IsDone(status)
    ensures o.write.patch.completedAt.Some? ==> o.write.patch.completedAt.value == now
    ensures o.write.patch.attempts.Some? <==> IsDone(status)
    ensures IsDone(status) && existing.None? ==> o.write.patch.attempts == Some(1)
    ensures IsDone(status) && existing.Some? ==> o.write.patch.attempts == Some(OrInt(storedAttempts, 0) + 1)
    ensures o.awardRequested <==> IsDone(status) && !WasAlreadyCompleted(existing) && score.Some?
  {
    var attempts :=
      if IsDone(status) then Some((if existing.Some? then OrInt(storedAttempts, 0) else 0) + 1) else None;
    var patch := ProgressPatch(lessonId, status, now, score, timeSpent, if IsDone(status) then Some(now) else None, attempts);
    var write := if existing.Some? then Update(existing.value.id, patch) else Insert(patch);
    UpdateOutcome(write, IsDone(status) && !WasAlreadyCompleted(existing) && score.Some?)
  }

  /** `updateProgress` as written: the guard reads a status the query never selected. */
  function UpdateProgressAsWritten(
    stored: Option<ProgressRow>, lessonId: string, status: Status, score: Option<int>, timeSpent: Option<int>, now: int): (o: UpdateOutcome)
    ensures o.awardRequested <==> IsDone(status) && score.Some?
  {
    UpdateWith(SelectIdOnly(stored), if stored.Some? then stored.value.attempts else None, lessonId, status, score, timeSpent, now)
  }

  /** `updateProgress` with the status selected, so the first-completion guard can fire. */
  function UpdateProgress(
    stored: Option<ProgressRow>, lessonId: string, status: Status, score: Option<int>, timeSpent: Option<int>, now: int): (o: UpdateOutcome)
    ensures o.awardRequested <==> IsDone(status) && score.Some? && !(stored.Some? && IsDone(stored.value.status))
  {
    UpdateWith(SelectWithStatus(stored), if stored.Some? then stored.value.attempts else None, lessonId, status, score, timeSpent, now)
  }

  /** The stored row after a write: an update changes only the fields the patch carries. */
  function ApplyWrite(stored: Option<ProgressRow>, w: ProgressWrite, newRowId: string): (row: ProgressRow)
    requires w.Update? ==> stored.Some?
    ensures row.status == w.patch.status && row.lessonId == w.patch.lessonId
    ensures w.patch.score.Some? ==> row.score == w.patch.score
    ensures w.Update? && w.patch.score.None? ==> row.score == stored.value.score
    ensures w.Update? && w.patch.timeSpent.None? ==> row.timeSpent == stored.value.timeSpent
    ensures w.Update? && w.patch.attempts.None? ==> row.attempts == stored.value.attempts
    ensures w.Update? && w.patch.completedAt.None? ==> row.completedAt == stored.value.completedAt
  {
    var p := w.patch;
    match w
    case Insert(_) =>
      ProgressRow(newRowId, p.lessonId, p.status, p.score, p.timeSpent, p.attempts, p.completedAt, p.lastAccessed)
    case Update(id, _) =>
      var prev := stored.value;
      ProgressRow(
        prev.rowId, p.lessonId, p.status,
        if p.score.Some? then p.score else prev.score,
        if p.timeSpent.Some? then p.timeSpent else prev.timeSpent,
        if p.attempts.Some? then p.attempts else prev.attempts,
        if p.completedAt.Some? then p.completedAt else prev.completedAt,
        p.lastAccessed)
  }

  /** With the status selected, the call right after a rewarded completion requests no reward. */
  lemma RecompletionRequestsNoReward(
    stored: Option<ProgressRow>, lessonId: string, status: Status, score: Option<int>, now: int,
    status2: Status, score2: Option<int>, now2: int, newRowId: string)
    requires stored.Some? ==> stored.value.lessonId == lessonId
    requires UpdateProgress(stored, lessonId, status, score, None, now).awardRequested
    ensures !UpdateProgress(
              Some(ApplyWrite(stored, UpdateProgress(stored, lessonId, status, score, None, now).write, newRowId)),
              lessonId, status2, score2, None, now2).awardRequested
  {
  }

  /**
   * A failing retry of a completed lesson stores `in_progress` over the done
   * status, so a later passing completion requests the reward again.
   */
  lemma FailedRetryReopensReward(row: ProgressRow, score: int, score2: int, now: int, now2: int, newRowId: string)
    requires IsDone(row.status)
    ensures var failed := UpdateProgress(Some(row), row.lessonId, InProgress, Some(score), None, now);
            && !failed.awardRequested
            && UpdateProgress(Some(ApplyWrite(Some(row), failed.write, newRowId)), row.lessonId,
                              Completed, Some(score2), None, now2).awardRequested
  {
  }

  /**
   * As written, the same submission repeated on a lesson that is already
   * completed requests rewards again.
   */
  lemma AsWrittenRegrantsOnRecompletion()
    ensures var stored := Some(ProgressRow("row-1", "lesson-1", Completed, Some(80), None, Some(1), Some(5), 5));
            UpdateProgressAsWritten(stored, "lesson-1", Completed, Some(80), None, 6).awardRequested
  {
  }

  // ---------------------------------------------------------------------------
  // Rewards, level and streak (awardRewards)

  const PerfectScore := 100
  const PerfectXpBonus := 10
  const PerfectCoinBonus := 5
  const DefaultXpReward := 10
  const DefaultCoinReward := 5

  datatype Reward = Reward(xp: int, coins: int)

  /** The configured reward (10 XP / 5 coins when missing or zero) plus the perfect-score bonus. */
  function LessonReward(lesson: Lesson, score: int): (r: Reward)
    ensures r.xp == OrInt(lesson.xpReward, DefaultXpReward) + (if score == PerfectScore then PerfectXpBonus else 0)
    ensures r.coins == OrInt(lesson.coinReward, DefaultCoinReward) + (if score == PerfectScore then PerfectCoinBonus else 0)
  {
    var base := Reward(OrInt(lesson.xpReward, DefaultXpReward), OrInt(lesson.coinReward, DefaultCoinReward));
    if score == PerfectScore then Reward(base.xp + PerfectXpBonus, base.coins + PerfectCoinBonus) else base
  }

  /** A perfect score earns exactly 10 XP and 5 coins more than any other score. */
  lemma PerfectBonusIsExact(lesson: Lesson, score: int)
    requires score != PerfectScore
    ensures LessonReward(lesson, PerfectScore).xp == LessonReward(lesson, score).xp + 10
    ensures LessonReward(lesson, PerfectScore).coins == LessonReward(lesson, score).coins + 5
  {
  }

  /**
   * The daily streak after an activity on day `today`, given the stored streak
   * and the day of the last activity.
   */
  function NextStreak(streak: int, last: Option<int>, today: int): (r: int)
    ensures last == Some(today) ==> r == streak
    ensures last == Some(today - 1) ==> r == streak + 1
    ensures last.None? || last.value < today - 1 ==> r == 1
    ensures last.Some? && last.value > today ==> r == streak
  {
    if last == Some(today) then streak
    else if last == Some(today - 1) then streak + 1
    else if last.None? || last.value < today - 1 then 1
    else streak
  }

  /** A second activity on the same day leaves the streak where the first one put it. */
  lemma SameDayIdempotent(streak: int, last: Option<int>, today: int)
    ensures NextStreak(NextStreak(streak, last, today), Some(today), today) == NextStreak(streak, last, today)
  {
  }

  /** The streak and last-activity day after activity on each of `days` in turn. */
  function StreakAfter(streak: int, last: Option<int>, days: seq<int>): (int, Option<int>)
    decreases |days|
  {
    if |days| == 0 then (streak, last)
    else StreakAfter(NextStreak(streak, last, days[0]), Some(days[0]), days[1..])
  }

  /**
   * Activity on `n` consecutive calendar days, starting with no recorded
   * activity, leaves a streak of exactly `n`.
   */
  lemma {:induction false} ConsecutiveDaysCount(start: int, n: nat, k: nat)
    requires 0 < k <= n
    ensures StreakAfter(k, Some(start + k - 1), seq(n - k, i requires 0 <= i < n - k => start + k + i)) == (n, Some(start + n - 1))
    decreases n - k
  {
    var days := seq(n - k, i requires 0 <= i < n - k => start + k + i);
    if k < n {
      assert days[0] == start + k;
      assert days[1..] == seq(n - (k + 1), i requires 0 <= i < n - (k + 1) => start + (k + 1) + i);
      ConsecutiveDaysCount(start, n, k + 1);
    }
  }

  /** Whatever the stored streak, a fresh run of `n` consecutive active days yields a streak of `n`. */
  lemma ConsecutiveDaysStreak(streak: int, start: int, n: nat)
    requires n > 0
    ensures StreakAfter(streak, None, seq(n, i requires 0 <= i < n => start + i)).0 == n
  {
    var days := seq(n, i requires 0 <= i < n => start + i);
    assert days[0] == start;
    assert days[1..] == seq(n - 1, i requires 0 <= i < n - 1 => start + 1 + i);
    ConsecutiveDaysCount(start, n, 1);
  }

  /** The profile columns read by the reward engine (all nullable). */
  datatype Profile = Profile(
    xp: Option<int>,
    coins: Option<int>,
    streakDays: Option<int>,
    lastActivity: Option<int>,
    lessonsCompleted: Option<int>,
    perfectScores: Option<int>)

  /** The profile write; `None` fields are not written. */
  datatype ProfileUpdate = ProfileUpdate(
    xp: int,
    coins: int,
    streakDays: int,
    lastActivity: int,
    lessonsCompleted: int,
    perfectScores: Option<int>,
    userLevel: Option<int>)

  /** The user-stats columns read by the reward engine; `None` means the row does not exist. */
  datatype Stats = Stats(longestStreak: Option<int>, perfectScores: Option<int>)

  /** The user-stats write: an update of the existing row or an insert of a new one. */
  datatype StatsWrite = StatsWrite(
    isInsert: bool,
    totalXp: int,
    totalCoins: int,
    currentStreak: int,
    longestStreak: int,
    lessonsCompleted: int,
    perfectScores: int,
    lastLessonDate: int)

  datatype Award = Award(
    reward: Reward,
    newXp: int,
    newCoins: int,
    leveledUp: bool,
    newLevel: int,
    newStreak: int,
    profile: ProfileUpdate,
    stats: StatsWrite)

  /**
   * `awardRewards`: fails when the profile row is missing; otherwise the new
   * totals, level, streak and counters.
   */
  function AwardRewards(
    table: seq<LevelTable.LevelEntry>, lesson: Lesson, score: int,
    profile: Option<Profile>, stats: Option<Stats>, today: int): (r: Result<Award>)
    ensures r.Failed? <==> profile.None?
    ensures r.Ok? ==>
      var a := r.value;
      var p := profile.value;
      && a.reward == LessonReward(lesson, score)
      && a.newXp == OrInt(p.xp, 0) + a.reward.xp
      && a.newCoins == OrInt(p.coins, 0) + a.reward.coins
      && a.newLevel == LevelTable.LevelFor(table, a.newXp)
      && (a.leveledUp <==> a.newLevel > LevelTable.LevelFor(table, OrInt(p.xp, 0)))
      && (a.profile.userLevel.Some? <==> a.leveledUp)
      && (a.leveledUp ==> a.profile.userLevel == Some(a.newLevel))
      && a.newStreak == NextStreak(OrInt(p.streakDays, 0), p.lastActivity, today)
      && a.profile.xp == a.newXp && a.profile.coins == a.newCoins
      && a.profile.streakDays == a.newStreak && a.profile.lastActivity == today
      && a.profile.lessonsCompleted == OrInt(p.lessonsCompleted, 0) + 1
      && (a.profile.perfectScores.Some? <==> score == PerfectScore)
      && (score == PerfectScore ==> a.profile.perfectScores == Some(OrInt(p.perfectScores, 0) + 1))
      && a.stats.isInsert == stats.None?
      && a.stats.totalXp == a.newXp && a.stats.totalCoins == a.newCoins
      && a.stats.currentStreak == a.newStreak
      && a.stats.longestStreak >= a.newStreak
      && (stats.Some? ==> a.stats.longestStreak >= OrInt(stats.value.longestStreak, 0))
      && (stats.None? ==> a.stats.longestStreak == a.newStreak)
      && (stats.Some? ==> a.stats.longestStreak == Max(a.newStreak, OrInt(stats.value.longestStreak, 0)))
      && (stats.Some? ==> a.stats.perfectScores == OrInt(a.profile.perfectScores, OrInt(stats.value.perfectScores, 0)))
      && (stats.None? ==> a.stats.perfectScores == OrInt(a.profile.perfectScores, 0))
      && a.stats.lessonsCompleted == a.profile.lessonsCompleted
      && a.stats.lastLessonDate == today
  {
    if profile.None? then Failed
    else
      var p := profile.value;
      var currentXp := OrInt(p.xp, 0);
      var currentCoins := OrInt(p.coins, 0);
      var currentLevel := LevelTable.LevelFor(table, currentXp);
      var reward := LessonReward(lesson, score);
      var newXp := currentXp + reward.xp;
      var newCoins := currentCoins + reward.coins;
      var newLevel := LevelTable.LevelFor(table, newXp);
      var leveledUp := newLevel > currentLevel;
      var newStreak := NextStreak(OrInt(p.streakDays, 0), p.lastActivity, today);
      var lessonsCompleted := OrInt(p.lessonsCompleted, 0) + 1;
      var perfect := if score == PerfectScore then Some(OrInt(p.perfectScores, 0) + 1) else None;
      var update := ProfileUpdate(newXp, newCoins, newStreak, today, lessonsCompleted, perfect,
                                  if leveledUp then Some(newLevel) else None);
      var statsWrite :=
        if stats.Some? then
          var prior := stats.value;
          var longest := OrInt(prior.longestStreak, 0);
          StatsWrite(false, newXp, newCoins, newStreak, if newStreak >= longest then newStreak else longest,
                     lessonsCompleted, OrInt(perfect, OrInt(prior.perfectScores, 0)), today)
        else
          StatsWrite(true, newXp, newCoins, newStreak, newStreak, lessonsCompleted, OrInt(perfect, 0), today);
      Ok(Award(reward, newXp, newCoins, leveledUp, newLevel, newStreak, update, statsWrite))
  }

  /**
   * With non-negative configured rewards and a table ascending from level 1,
   * XP and coins never decrease and the level never drops, so a level-up is
   * exactly a change of level.
   */
  lemma AwardIsMonotone(
    table: seq<LevelTable.LevelEntry>, lesson: Lesson, score: int, p: Profile, stats: Option<Stats>, today: int)
    requires LevelTable.Sorted(table) && (|table| > 0 ==> table[0].level >= 1)
    requires lesson.xpReward.Some? ==> lesson.xpReward.value >= 0
    requires lesson.coinReward.Some? ==> lesson.coinReward.value >= 0
    ensures var a := AwardRewards(table, lesson, score, Some(p), stats, today).value;
            && a.newXp > OrInt(p.xp, 0)
            && a.newCoins > OrInt(p.coins, 0)
            && a.newLevel >= LevelTable.LevelFor(table, OrInt(p.xp, 0))
            && (a.leveledUp <==> a.newLevel != LevelTable.LevelFor(table, OrInt(p.xp, 0)))
  {
    var a := AwardRewards(table, lesson, score, Some(p), stats, today).value;
    LevelTable.LevelForMonotone(table, OrInt(p.xp, 0), a.newXp);
  }

  /** The first completion of lesson L1 (10 XP, 5 coins) with a perfect score awards 20 XP and 10 coins. */
  lemma PerfectFirstLessonScenario()
    ensures LessonReward(Lesson("L1", false, Some(10), Some(5)), 100) == Reward(20, 10)
  {
  }
}
