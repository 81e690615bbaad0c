/**
 * The level-gated lesson hook (src/hooks/useLessons.ts): a second unlock
 * policy, independent of the sequential one, that locks whole difficulty
 * levels until enough lessons of the level below are completed or the profile
 * has been promoted; the pass mark, the XP award, the promotion thresholds,
 * the badge checks and the completion summary.
 */
module LevelGated {
  import opened Common

  datatype Level = Beginner | Intermediate | Advanced

  function Rank(l: Level): nat {
    match l
    case Beginner => 0
    case Intermediate => 1
    case Advanced => 2
  }

  /** A row of the lessons table as this hook reads it. */
  datatype LessonRow = LessonRow(id: string, level: Level, xpReward: Option<int>, duration: Option<int>)

  /** The progress columns this hook reads: `completed` and `quiz_score`, both nullable. */
  datatype ProgressEntry = ProgressEntry(completed: Option<bool>, quizScore: Option<int>)

  /** The profile columns this hook reads. */
  datatype Profile = Profile(xp: Option<int>, level: Option<Level>)

  const UnlockCount := 3
  const PassMark := 70
  const IntermediateXp := 500
  const AdvancedXp := 2000

  predicate CompletedIn(progress: map<string, ProgressEntry>, id: string) {
    id in progress && progress[id].completed == Some(true)
  }

  /** The number of lessons of `level` whose progress says completed. */
  function CompletedAtLevel(lessons: seq<LessonRow>, progress: map<string, ProgressEntry>, level: Level): (n: nat)
    ensures n <= |lessons|
    ensures n == |set i | 0 <= i < |lessons| && lessons[i].level == level && CompletedIn(progress, lessons[i].id)|
  {
    if |lessons| == 0 then 0
    else
      LevelPositionsStep(lessons, progress, level);
      CompletedAtLevel(lessons[..|lessons| - 1], progress, level)
      + (if lessons[|lessons| - 1].level == level && CompletedIn(progress, lessons[|lessons| - 1].id) then 1 else 0)
  }

  /** The completed positions of `level` grow by the last position exactly when it is one of them. */
  lemma LevelPositionsStep(lessons: seq<LessonRow>, progress: map<string, ProgressEntry>, level: Level)
    requires |lessons| > 0
    ensures var n := |lessons| - 1;
            var init := lessons[..n];
            |set i | 0 <= i < |lessons| && lessons[i].level == level && CompletedIn(progress, lessons[i].id)|
            == |set i | 0 <= i < n && init[i].level == level && CompletedIn(progress, init[i].id)|
               + (if lessons[n].level == level && CompletedIn(progress, lessons[n].id) then 1 else 0)
  {
    var n := |lessons| - 1;
    var init := lessons[..n];
    var all := set i | 0 <= i < |lessons| && lessons[i].level == level && CompletedIn(progress, lessons[i].id);
    var before := set i | 0 <= i < n && init[i].level == level && CompletedIn(progress, init[i].id);
    if lessons[n].level == level && CompletedIn(progress, lessons[n].id) {
      assert all == before + {n};
    } else {
      assert all == before;
    }
  }

  /** The level a missing profile or a missing level column falls back to. */
  function UserLevel(profile: Option<Profile>): Level {
    if profile.Some? && profile.value.level.Some? then profile.value.level.value else Beginner
  }

  predicate IntermediateUnlocked(lessons: seq<LessonRow>, progress: map<string, ProgressEntry>, user: Level) {
    CompletedAtLevel(lessons, progress, Beginner) >= UnlockCount || user != Beginner
  }

  predicate AdvancedUnlocked(lessons: seq<LessonRow>, progress: map<string, ProgressEntry>, user: Level) {
    (CompletedAtLevel(lessons, progress, Intermediate) >= UnlockCount && IntermediateUnlocked(lessons, progress, user))
    || user == Advanced
  }

  /** One entry of the lesson list the hook exposes. */
  datatype LessonView = LessonView(
    id: string,
    level: Level,
    xpReward: int,
    duration: int,
    isCompleted: bool,
    quizScore: Option<int>,
    isLocked: bool)

  function ViewOf(lessons: seq<LessonRow>, progress: map<string, ProgressEntry>, user: Level, l: LessonRow): LessonView {
    var isLocked :=
      (l.level == Intermediate && !IntermediateUnlocked(lessons, progress, user))
      || (l.level == Advanced && !AdvancedUnlocked(lessons, progress, user));
    LessonView(
      l.id, l.level, OrInt(l.xpReward, 10), OrInt(l.duration, 5),
      CompletedIn(progress, l.id),
      if l.id in progress then progress[l.id].quizScore else None,
      isLocked)
  }

  /**
   * The lesson list with lock flags: beginner lessons are never locked,
   * intermediate ones are locked iff fewer than three beginner lessons are
   * completed and the profile is still a beginner, advanced ones are locked
   * unless three intermediate lessons are completed with intermediate
   * unlocked, or the profile is advanced.
   */
  function Views(lessons: seq<LessonRow>, progress: map<string, ProgressEntry>, profile: Option<Profile>): (r: seq<LessonView>)
    ensures |r| == |lessons|
    ensures forall i :: 0 <= i < |r| ==> r[i].id == lessons[i].id && r[i].level == lessons[i].level
    ensures forall i :: 0 <= i < |r| ==> r[i].xpReward == OrInt(lessons[i].xpReward, 10)
    ensures forall i :: 0 <= i < |r| ==> (r[i].isCompleted <==> CompletedIn(progress, lessons[i].id))
    ensures forall i :: 0 <= i < |r| && lessons[i].level == Beginner ==> !r[i].isLocked
    ensures forall i :: 0 <= i < |r| && lessons[i].level == Intermediate ==>
              (r[i].isLocked <==> CompletedAtLevel(lessons, progress, Beginner) < 3 && UserLevel(profile) == Beginner)
    ensures forall i :: 0 <= i < |r| && lessons[i].level == Advanced ==>
              (r[i].isLocked <==>
                 !((CompletedAtLevel(lessons, progress, Intermediate) >= 3
                    && (CompletedAtLevel(lessons, progress, Beginner) >= 3 || UserLevel(profile) != Beginner))
                   || UserLevel(profile) == Advanced))
  {
    seq(|lessons|, i requires 0 <= i < |lessons| => ViewOf(lessons, progress, UserLevel(profile), lessons[i]))
  }

  /** More completions never lower a per-level completed count. */
  lemma {:induction false} CompletedAtLevelMonotone(
    lessons: seq<LessonRow>, p1: map<string, ProgressEntry>, p2: map<string, ProgressEntry>, level: Level)
    requires forall id :: CompletedIn(p1, id) ==> CompletedIn(p2, id)
    ensures CompletedAtLevel(lessons, p1, level) <= CompletedAtLevel(lessons, p2, level)
    decreases |lessons|
  {
    if |lessons| > 0 {
      CompletedAtLevelMonotone(lessons[..|lessons| - 1], p1, p2, level);
    }
  }

  /**
   * The level gate only ever opens: with every completion kept and a profile
   * level that has not dropped, a lesson unlocked before stays unlocked.
   */
  lemma UnlockIsMonotone(
    lessons: seq<LessonRow>, p1: map<string, ProgressEntry>, p2: map<string, ProgressEntry>,
    prof1: Option<Profile>, prof2: Option<Profile>, i: nat)
    requires i < |lessons|
    requires forall id :: CompletedIn(p1, id) ==> CompletedIn(p2, id)
    requires Rank(UserLevel(prof1)) <= Rank(UserLevel(prof2))
    requires !Views(lessons, p1, prof1)[i].isLocked
    ensures !Views(lessons, p2, prof2)[i].isLocked
  {
    CompletedAtLevelMonotone(lessons, p1, p2, Beginner);
    CompletedAtLevelMonotone(lessons, p1, p2, Intermediate);
  }

  // ---------------------------------------------------------------------------
  // completeLesson

  /** The promotion rule: 2000 XP makes any non-advanced profile advanced, 500 XP promotes a beginner. */
  function Promote(newXp: int, level: Level): (r: Level)
    ensures Rank(r) >= Rank(level)
    ensures newXp >= AdvancedXp ==> r == Advanced
    ensures newXp >= IntermediateXp ==> r != Beginner
    ensures newXp < IntermediateXp ==> r == level
    ensures r != level ==> newXp >= IntermediateXp
  {
    if newXp >= AdvancedXp && level != Advanced then Advanced
    else if newXp >= IntermediateXp && level == Beginner then Intermediate
    else level
  }

  /** More XP never gives a lower promoted level. */
  lemma PromoteMonotone(xp1: int, xp2: int, level: Level)
    requires xp1 <= xp2
    ensures Rank(Promote(xp1, level)) <= Rank(Promote(xp2, level))
  {
  }

  datatype Badge = Badge(id: string, threshold: int)

  /** The badges checked after an award, with the XP each needs (`first_lesson` needs none). */
  const Badges: seq<Badge> := [Badge("first_lesson", 0), Badge("xp_100", 100), Badge("xp_500", 500), Badge("xp_1000", 1000)]

  predicate Eligible(b: Badge, totalXp: int) {
    b.id == "first_lesson" || totalXp >= b.threshold
  }

  /** The badges inserted, in checking order: the eligible ones not already held. */
  function BadgeInserts(candidates: seq<Badge>, totalXp: int, held: set<string>): (r: seq<string>)
    ensures forall id :: id in r <==> exists b :: b in candidates && b.id == id && Eligible(b, totalXp) && id !in held
  {
    if |candidates| == 0 then []
    else
      var b := candidates[0];
      var rest := BadgeInserts(candidates[1..], totalXp, held);
      assert forall c :: c in candidates <==> c == b || c in candidates[1..];
      if Eligible(b, totalXp) && b.id !in held then [b.id] + rest else rest
  }

  /** Badges are never awarded twice: after the inserts, a repeated check inserts nothing. */
  lemma BadgeCheckIdempotent(totalXp: int, held: set<string>)
    ensures var first := BadgeInserts(Badges, totalXp, held);
            BadgeInserts(Badges, totalXp, held + (set id | id in first)) == []
  {
    var first := BadgeInserts(Badges, totalXp, held);
    var held' := held + (set id | id in first);
    forall b | b in Badges && Eligible(b, totalXp)
      ensures b.id in held'
    {
      if b.id !in held {
        assert b.id in first;
      }
    }
    NothingLeftToInsert(Badges, totalXp, held');
  }

  /** When every eligible badge is already held, the check inserts nothing. */
  lemma {:induction false} NothingLeftToInsert(candidates: seq<Badge>, totalXp: int, held: set<string>)
    requires forall b :: b in candidates && Eligible(b, totalXp) ==> b.id in held
    ensures BadgeInserts(candidates, totalXp, held) == []
    decreases |candidates|
  {
    if |candidates| > 0 {
      assert candidates[0] in candidates;
      assert forall b :: b in candidates[1..] ==> b in candidates;
      NothingLeftToInsert(candidates[1..], totalXp, held);
    }
  }

  /** `first_lesson` is always eligible, so a profile without it always gains it. */
  lemma FirstLessonAlwaysAwarded(totalXp: int, held: set<string>)
    requires "first_lesson" !in held
    ensures "first_lesson" in BadgeInserts(Badges, totalXp, held)
  {
    assert Badges[0] in Badges;
  }

  /** The progress write: `completed` is the pass decision, so a failing retry clears a completion. */
  datatype ProgressWrite = ProgressWrite(isInsert: bool, completed: bool, quizScore: int, completedAt: Option<int>)

  datatype ProfileWrite = ProfileWrite(xp: int, level: Level, lastActivity: int)

  datatype CompleteOutcome =
    | NoOp
    | Saved(progress: ProgressWrite, profile: Option<ProfileWrite>, badges: seq<string>)

  function FindLesson(views: seq<LessonView>, id: string): (r: Option<LessonView>)
    ensures r.Some? ==> r.value in views && r.value.id == id
    ensures r.None? ==> forall v :: v in views ==> v.id != id
  {
    if |views| == 0 then None
    else if views[0].id == id then Some(views[0])
    else FindLesson(views[1..], id)
  }

  /**
   * `completeLesson`: a no-op without a user or for an unknown lesson;
   * otherwise the progress write and, on a pass of a lesson not completed
   * before, the XP award, the promotion and the badge inserts.
   */
  function CompleteLesson(
    signedIn: bool, views: seq<LessonView>, lessonId: string, score: int,
    existing: Option<ProgressEntry>, profile: Option<Profile>, held: set<string>, now: int, today: int): (o: CompleteOutcome)
    ensures o.NoOp? <==> !signedIn || FindLesson(views, lessonId).None?
    ensures o.Saved? ==>
      var passed := score >= PassMark;
      var lesson := FindLesson(views, lessonId).value;
      var wasCompleted := existing.Some? && existing.value.completed == Some(true);
      && o.progress.isInsert == existing.None?
      && o.progress.completed == passed
      && o.progress.quizScore == score
      && (o.progress.completedAt.Some? <==> passed)
      && (o.profile.Some? <==> passed && !wasCompleted)
      && (o.profile.Some? ==>
            var oldXp := if profile.Some? then OrInt(profile.value.xp, 0) else 0;
            && o.profile.value.xp == oldXp + lesson.xpReward
            && o.profile.value.level == Promote(o.profile.value.xp, UserLevel(profile))
            && Rank(o.profile.value.level) >= Rank(UserLevel(profile))
            && o.profile.value.lastActivity == today)
      && (o.profile.None? ==> o.badges == [])
      && (o.profile.Some? ==> o.badges == BadgeInserts(Badges, o.profile.value.xp, held))
  {
    if !signedIn then NoOp
    else
      var found := FindLesson(views, lessonId);
      if found.None? then NoOp
      else
        var lesson := found.value;
        var passed := score >= PassMark;
        var wasCompleted := existing.Some? && existing.value.completed == Some(true);
        var write := ProgressWrite(existing.None?, passed, score, if passed then Some(now) else None);
        if passed && !wasCompleted then
          var newXp := (if profile.Some? then OrInt(profile.value.xp, 0) else 0) + lesson.xpReward;
          var level := Promote(newXp, UserLevel(profile));
          Saved(write, Some(ProfileWrite(newXp, level, today)), BadgeInserts(Badges, newXp, held))
        else
          Saved(write, None, [])
  }

  /** A failing retry of a completed lesson writes `completed = false` and awards nothing. */
  lemma FailingRetryClearsCompletion(
    views: seq<LessonView>, lessonId: string, score: int, profile: Option<Profile>, held: set<string>, now: int, today: int)
    requires FindLesson(views, lessonId).Some? && score < PassMark
    ensures var o := CompleteLesson(true, views, lessonId, score, Some(ProgressEntry(Some(true), Some(90))), profile, held, now, today);
            o.Saved? && !o.progress.completed && o.progress.completedAt.None? && o.profile.None?
  {
  }

  // ---------------------------------------------------------------------------
  // Completion summary

  /** The number of completed lessons: the size of the set of positions holding one. */
  function CountCompleted(views: seq<LessonView>): (n: nat)
    ensures n <= |views|
    ensures n == |set i | 0 <= i < |views| && views[i].isCompleted|
  {
    if |views| == 0 then 0
    else
      CompletedPositionsStep(views);
      CountCompleted(views[..|views| - 1]) + (if views[|views| - 1].isCompleted then 1 else 0)
  }

  /** The completed positions grow by the last position exactly when it is completed. */
  lemma CompletedPositionsStep(views: seq<LessonView>)
    requires |views| > 0
    ensures var n := |views| - 1;
            var init := views[..n];
            |set i | 0 <= i < |views| && views[i].isCompleted|
            == |set i | 0 <= i < n && init[i].isCompleted| + (if views[n].isCompleted then 1 else 0)
  {
    var n := |views| - 1;
    var init := views[..n];
    var all := set i | 0 <= i < |views| && views[i].isCompleted;
    var before := set i | 0 <= i < n && init[i].isCompleted;
    if views[n].isCompleted {
      assert all == before + {n};
    } else {
      assert all == before;
    }
  }

  /**
   * `Math.round(completed / total * 100)`, 0 for an empty list: the nearest
   * integer percentage, halves rounded up.
   */
  function ProgressPercent(completed: nat, total: nat): (p: int)
    requires completed <= total
    ensures total == 0 ==> p == 0
    ensures 0 <= p <= 100
    ensures total > 0 ==> 200 * completed - total < 2 * p * total <= 200 * completed + total
    ensures total > 0 && completed == total ==> p == 100
    ensures completed == 0 ==> p == 0
  {
    if total == 0 then 0
    else
      RoundedPercent(completed, total);
      (200 * completed + total) / (2 * total)
  }

  /** The arithmetic behind the rounding: quotient and remainder of `(200c + t) / 2t`. */
  lemma RoundedPercent(c: nat, t: nat)
    requires 0 < t && c <= t
    ensures var p := (200 * c + t) / (2 * t);
            && 0 <= p <= 100
            && 200 * c - t < 2 * p * t <= 200 * c + t
            && (c == t ==> p == 100)
            && (c == 0 ==> p == 0)
  {
    var n, d := 200 * c + t, 2 * t;
    var p, r := n / d, n % d;
    assert n == d * p + r && 0 <= r < d;
    assert 2 * p * t == d * p;
    if p > 100 {
      MulMonotone(d, 101, p);
      assert false;
    }
    if c == t {
      assert n == d * 100 + t;
      DivUnique(n, d, 100, t);
    }
    if c == 0 {
      DivUnique(n, d, 0, t);
    }
  }

  lemma MulMonotone(a: nat, b: int, c: int)
    requires b <= c
    ensures a * b <= a * c
  {
    assert a * c - a * b == a * (c - b);
  }

  /** A quotient is determined by any decomposition with a remainder in range. */
  lemma DivUnique(n: int, d: int, q: int, r: int)
    requires 0 < d && 0 <= r < d && n == d * q + r
    ensures n / d == q
  {
    var q', r' := n / d, n % d;
    assert n == d * q' + r';
    if q' < q {
      MulMonotone(d, q' + 1, q);
      assert false;
    } else if q' > q {
      MulMonotone(d, q + 1, q');
      assert false;
    }
  }

  datatype Summary = Summary(completedCount: nat, totalCount: nat, progressPercent: int)

  function Summarize(views: seq<LessonView>): (s: Summary)
    ensures s.totalCount == |views| && s.completedCount <= s.totalCount
    ensures 0 <= s.progressPercent <= 100
    ensures s.completedCount == 0 ==> s.progressPercent == 0
    ensures s.completedCount == |set i | 0 <= i < |views| && views[i].isCompleted|
    ensures s.progressPercent == ProgressPercent(s.completedCount, s.totalCount)
  {
    var c := CountCompleted(views);
    Summary(c, |views|, ProgressPercent(c, |views|))
  }

  /** A list whose every lesson is completed is summarised as fully complete. */
  lemma {:induction false} AllCompletedIsFull(views: seq<LessonView>)
    requires forall i :: 0 <= i < |views| ==> views[i].isCompleted
    ensures Summarize(views).completedCount == |views|
    ensures |views| > 0 ==> Summarize(views).progressPercent == 100
  {
    if |views| > 0 {
      var init := views[..|views| - 1];
      assert forall i :: 0 <= i < |init| ==> init[i].isCompleted;
      AllCompletedIsFull(init);
    }
  }
}
