/**
 * Personalised learning paths (src/lib/createUserLearningPath.ts): the pace
 * table, the estimated duration, the mapping from lesson codes to stored
 * lessons, the per-user path entries with their day and position, and the
 * unlocking of the next lessons after a completion.
 *
 * A lesson code `m.l` is modelled as the pair `Code(m, l)`; the code of an
 * `order_index` is the code the source renders as text.
 */
module LearningPath {
  import opened Common

  datatype Pace = Relaxed | Standard | Intensive | Accelerated | Flexible

  /** The pace table: lessons per day, none for a flexible pace. */
  function LessonsPerDay(p: Pace): (r: Option<nat>)
    ensures r.None? <==> p == Flexible
    ensures r.Some? ==> r.value in {2, 4, 6, 8}
  {
    match p
    case Relaxed => Some(2)
    case Standard => Some(4)
    case Intensive => Some(6)
    case Accelerated => Some(8)
    case Flexible => None
  }

  /** A faster pace never plans fewer lessons per day. */
  lemma PaceOrdered()
    ensures LessonsPerDay(Relaxed).value < LessonsPerDay(Standard).value
            < LessonsPerDay(Intensive).value < LessonsPerDay(Accelerated).value
  {
  }

  /** `Math.ceil(a / b)` on naturals: the least number of `b`-sized days that hold `a` lessons. */
  function CeilDiv(a: nat, b: nat): (r: nat)
    requires b > 0
    ensures r * b >= a
    ensures r == 0 || (r - 1) * b < a
  {
    (a + b - 1) / b
  }

  /** The estimated number of days, none for a flexible pace. */
  function EstimatedDays(totalLessons: nat, p: Pace): (r: Option<nat>)
    ensures r.None? <==> p == Flexible
    ensures r.Some? ==> r.value * LessonsPerDay(p).value >= totalLessons
    ensures r.Some? && r.value > 0 ==> (r.value - 1) * LessonsPerDay(p).value < totalLessons
  {
    var lpd := LessonsPerDay(p);
    if lpd.Some? then Some(CeilDiv(totalLessons, lpd.value)) else None
  }

  /** The `lessons_per_day` stored on the profile: a flexible pace is stored as 4. */
  function StoredLessonsPerDay(p: Pace): (r: nat)
    ensures p == Flexible ==> r == 4
    ensures p != Flexible ==> r == LessonsPerDay(p).value
  {
    OrInt(if LessonsPerDay(p).Some? then Some(LessonsPerDay(p).value as int) else None, 4)
  }

  // ---------------------------------------------------------------------------
  // Lesson codes

  datatype Code = Code(moduleNum: int, lessonNum: int)

  /** The code of a position: `floor(i / 10) + 1` and `i % 10 + 1`, ten lessons per module. */
  function CodeOf(i: int): Code {
    Code(i / 10 + 1, JsRem(i, 10) + 1)
  }

  /** The position a code stands for, `(module - 1) * 10 + (lesson - 1)`. */
  function IndexOf(c: Code): int {
    (c.moduleNum - 1) * 10 + (c.lessonNum - 1)
  }

  /** For a non-negative position the code reads back to the position. */
  lemma CodeRoundTrip(i: int)
    requires i >= 0
    ensures IndexOf(CodeOf(i)) == i
    ensures 1 <= CodeOf(i).lessonNum <= 10 && CodeOf(i).moduleNum >= 1
  {
  }

  /** Hence distinct non-negative positions have distinct codes. */
  lemma CodeOfInjective(i: int, j: int)
    requires i >= 0 && j >= 0 && CodeOf(i) == CodeOf(j)
    ensures i == j
  {
    CodeRoundTrip(i);
    CodeRoundTrip(j);
  }

  /** The round trip fails below zero, where floor division and the truncating remainder disagree. */
  lemma NegativeIndexDoesNotRoundTrip()
    ensures CodeOf(-1) == Code(0, 0) && IndexOf(CodeOf(-1)) == -11
  {
  }

  /** A row of the lessons table as the path builder reads it; a null `order_index` counts as 0. */
  datatype DbLesson = DbLesson(id: string, orderIndex: Option<int>)

  function OrderOf(l: DbLesson): int {
    if l.orderIndex.Some? then l.orderIndex.value else 0
  }

  /** A code paired with the lesson it names. */
  datatype CodeEntry = CodeEntry(code: Code, id: string)

  /** `Map.set` applied in order: the last entry for a code wins. */
  function LastWins(entries: seq<CodeEntry>): (m: map<Code, string>)
    ensures forall i :: 0 <= i < |entries| ==> entries[i].code in m
  {
    if |entries| == 0 then map[]
    else
      var last := entries[|entries| - 1];
      LastWins(entries[..|entries| - 1])[last.code := last.id]
  }

  /** Entry `i` is the last one for code `c`. */
  predicate LastFor(entries: seq<CodeEntry>, c: Code, i: int) {
    && 0 <= i < |entries|
    && entries[i].code == c
    && forall j :: i < j < |entries| ==> entries[j].code != c
  }

  /** Every code of the map resolves to the last entry for that code. */
  lemma {:induction false} LastWinsSound(entries: seq<CodeEntry>, c: Code)
    requires c in LastWins(entries)
    ensures exists i :: LastFor(entries, c, i) && LastWins(entries)[c] == entries[i].id
    decreases |entries|
  {
    var n := |entries| - 1;
    var prefix := entries[..n];
    if entries[n].code == c {
      assert LastFor(entries, c, n);
    } else {
      ByPrefix(entries, c);
      LastWinsSound(prefix, c);
      var i :| LastFor(prefix, c, i) && LastWins(prefix)[c] == prefix[i].id;
      assert prefix[i] == entries[i];
      forall j | i < j < |entries|
        ensures entries[j].code != c
      {
        if j < n {
          assert prefix[j] == entries[j];
        }
      }
      assert LastFor(entries, c, i);
    }
  }

  lemma ByPrefix(entries: seq<CodeEntry>, c: Code)
    requires |entries| > 0 && entries[|entries| - 1].code != c && c in LastWins(entries)
    ensures c in LastWins(entries[..|entries| - 1])
    ensures LastWins(entries)[c] == LastWins(entries[..|entries| - 1])[c]
  {
  }

  /** The first pass of the code map: the code of each lesson's `order_index - shift`, a later lesson overriding. */
  function ByOrderIndex(lessons: seq<DbLesson>, shift: int): (m: map<Code, string>)
    ensures forall i :: 0 <= i < |lessons| ==> CodeOf(OrderOf(lessons[i]) - shift) in m
  {
    LastWins(Coded(lessons, shift))
  }

  function Coded(lessons: seq<DbLesson>, shift: int): (r: seq<CodeEntry>)
    ensures |r| == |lessons|
    ensures forall i :: 0 <= i < |r| ==> r[i] == CodeEntry(CodeOf(OrderOf(lessons[i]) - shift), lessons[i].id)
  {
    seq(|lessons|, i requires 0 <= i < |lessons| => CodeEntry(CodeOf(OrderOf(lessons[i]) - shift), lessons[i].id))
  }

  /** The second pass: the code of each list position, only where the first pass left the code free. */
  function ByPosition(lessons: seq<DbLesson>, m: map<Code, string>): (r: map<Code, string>)
    ensures forall c :: c in m ==> c in r && r[c] == m[c]
    ensures forall i :: 0 <= i < |lessons| ==> CodeOf(i) in r
    ensures forall c :: c in r && c !in m ==>
              0 <= IndexOf(c) < |lessons| && CodeOf(IndexOf(c)) == c && r[c] == lessons[IndexOf(c)].id
  {
    if |lessons| == 0 then m
    else
      var n := |lessons| - 1;
      var r := ByPosition(lessons[..n], m);
      CodeRoundTrip(n);
      if CodeOf(n) in r then r else r[CodeOf(n) := lessons[n].id]
  }

  /**
   * The code map as written: the first pass reads `order_index` as a 0-based
   * position, so with the 1-based indexes the catalogue is seeded with, the
   * first lesson takes code 1.2 and the fallback gives it 1.1 as well.
   */
  function CodeMapAsWritten(lessons: seq<DbLesson>): (m: map<Code, string>)
    ensures forall i :: 0 <= i < |lessons| ==> CodeOf(OrderOf(lessons[i])) in m && CodeOf(i) in m
  {
    ByPosition(lessons, ByOrderIndex(lessons, 0))
  }

  /** Seeded with order indexes 1 and 2, two codes resolve to the first lesson. */
  lemma AsWrittenMapsTwoCodesToOneLesson(ls: seq<DbLesson>)
    requires ls == [DbLesson("lesson-a", Some(1)), DbLesson("lesson-b", Some(2))]
    ensures var m := CodeMapAsWritten(ls);
            Code(1, 1) in m && Code(1, 2) in m && m[Code(1, 1)] == m[Code(1, 2)] == "lesson-a"
  {
    AsWrittenFirstPass(ls);
    FirstLessonTakesTwoCodes(ls);
  }

  /**
   * Whenever the first pass gives the first lesson code 1.2 and leaves 1.1
   * free, the fallback gives it 1.1 as well.
   */
  lemma FirstLessonTakesTwoCodes(ls: seq<DbLesson>)
    requires |ls| > 0
    requires var first := ByOrderIndex(ls, 0);
             Code(1, 2) in first && first[Code(1, 2)] == ls[0].id && Code(1, 1) !in first
    ensures var m := CodeMapAsWritten(ls);
            Code(1, 1) in m && Code(1, 2) in m && m[Code(1, 1)] == m[Code(1, 2)] == ls[0].id
  {
    var first := ByOrderIndex(ls, 0);
    var m := ByPosition(ls, first);
    assert m == CodeMapAsWritten(ls);
    assert CodeOf(0) == Code(1, 1) && IndexOf(Code(1, 1)) == 0;
    assert Code(1, 1) in m;
  }

  /** The first pass over order indexes 1 and 2 gives the first lesson code 1.2 and leaves 1.1 free. */
  lemma AsWrittenFirstPass(ls: seq<DbLesson>)
    requires ls == [DbLesson("lesson-a", Some(1)), DbLesson("lesson-b", Some(2))]
    ensures var first := ByOrderIndex(ls, 0);
            Code(1, 2) in first && first[Code(1, 2)] == "lesson-a" && Code(1, 1) !in first
  {
    var coded := Coded(ls, 0);
    assert coded == [CodeEntry(Code(1, 2), "lesson-a"), CodeEntry(Code(1, 3), "lesson-b")];
    assert coded[..1] == [CodeEntry(Code(1, 2), "lesson-a")];
    assert coded[..1][..0] == [];
    assert LastWins(coded[..1]) == map[Code(1, 2) := "lesson-a"];
  }

  /** The code map with `order_index` read as the 1-based position it is seeded as. */
  function CodeMap(lessons: seq<DbLesson>): (m: map<Code, string>)
    ensures forall i :: 0 <= i < |lessons| ==> CodeOf(OrderOf(lessons[i]) - 1) in m && CodeOf(i) in m
  {
    ByPosition(lessons, ByOrderIndex(lessons, 1))
  }

  /** Lessons numbered 1, 2, 3, ... in list order. */
  predicate SeededInOrder(lessons: seq<DbLesson>) {
    forall i :: 0 <= i < |lessons| ==> lessons[i].orderIndex == Some(i + 1)
  }

  /** With lessons seeded in order, the code of position `i` resolves to lesson `i`, so no two codes share a lesson. */
  lemma CodeMapResolvesPositions(lessons: seq<DbLesson>, i: nat)
    requires SeededInOrder(lessons) && i < |lessons|
    ensures CodeOf(i) in CodeMap(lessons) && CodeMap(lessons)[CodeOf(i)] == lessons[i].id
  {
    var first := ByOrderIndex(lessons, 1);
    assert OrderOf(lessons[i]) - 1 == i;
    assert CodeOf(i) in first;
    LastWinsSound(Coded(lessons, 1), CodeOf(i));
    var j :| LastFor(Coded(lessons, 1), CodeOf(i), j) && first[CodeOf(i)] == lessons[j].id;
    assert OrderOf(lessons[j]) - 1 == j;
    CodeOfInjective(i, j);
  }

  // ---------------------------------------------------------------------------
  // Path entries

  /** One `user_lesson_progress` row of a new path; `unlockedNow` stands for a set `unlocked_at`. */
  datatype PathEntry = PathEntry(
    lessonId: string,
    isLocked: bool,
    completed: bool,
    orderInPath: nat,
    dayNumber: Option<nat>,
    positionInDay: Option<nat>,
    unlockedNow: bool)

  function EntryAt(i: nat, lessonId: string, lpd: Option<nat>): (e: PathEntry)
    requires lpd.Some? ==> lpd.value > 0
  {
    PathEntry(
      lessonId, i > 2, false, i + 1,
      if lpd.Some? then Some(i / lpd.value + 1) else None,
      if lpd.Some? then Some(i % lpd.value + 1) else None,
      i <= 2)
  }

  /** The entries of a path: one per code that resolves, in code order; unresolved codes are skipped. */
  function Entries(codes: seq<Code>, m: map<Code, string>, lpd: Option<nat>): (r: seq<PathEntry>)
    requires lpd.Some? ==> lpd.value > 0
    ensures |r| <= |codes|
    ensures (forall i :: 0 <= i < |codes| ==> codes[i] in m) ==>
              |r| == |codes| && forall k :: 0 <= k < |r| ==> r[k].orderInPath == k + 1
    ensures forall k :: 0 <= k < |r| ==>
              && 1 <= r[k].orderInPath <= |codes|
              && codes[r[k].orderInPath - 1] in m
              && r[k] == EntryAt(r[k].orderInPath - 1, m[codes[r[k].orderInPath - 1]], lpd)
    ensures forall k, l :: 0 <= k < l < |r| ==> r[k].orderInPath < r[l].orderInPath
  {
    if |codes| == 0 then []
    else
      var n := |codes| - 1;
      var rest := Entries(codes[..n], m, lpd);
      EntriesStep(codes, m, lpd, rest);
      if codes[n] in m then rest + [EntryAt(n, m[codes[n]], lpd)] else rest
  }

  /** Every code that resolves has an entry at its place in the path. */
  lemma {:induction false} EntriesCoverResolved(codes: seq<Code>, m: map<Code, string>, lpd: Option<nat>, i: nat)
    requires lpd.Some? ==> lpd.value > 0
    requires i < |codes| && codes[i] in m
    ensures exists k :: 0 <= k < |Entries(codes, m, lpd)| && Entries(codes, m, lpd)[k].orderInPath == i + 1
  {
    var n := |codes| - 1;
    var rest := Entries(codes[..n], m, lpd);
    var r := Entries(codes, m, lpd);
    if codes[n] in m {
      assert r == rest + [EntryAt(n, m[codes[n]], lpd)];
      if i == n {
        assert r[|rest|].orderInPath == i + 1;
      } else {
        assert codes[..n][i] == codes[i];
        EntriesCoverResolved(codes[..n], m, lpd, i);
        var k :| 0 <= k < |rest| && rest[k].orderInPath == i + 1;
        assert r[k] == rest[k];
      }
    } else {
      assert r == rest;
      assert i < n && codes[..n][i] == codes[i];
      EntriesCoverResolved(codes[..n], m, lpd, i);
    }
  }

  /** Entries resolved from all codes but the last stay resolved, and stay below the last place, for the whole list. */
  lemma EntriesStep(codes: seq<Code>, m: map<Code, string>, lpd: Option<nat>, rest: seq<PathEntry>)
    requires lpd.Some? ==> lpd.value > 0
    requires |codes| > 0
    requires forall k :: 0 <= k < |rest| ==>
               && 1 <= rest[k].orderInPath <= |codes| - 1
               && codes[..|codes| - 1][rest[k].orderInPath - 1] in m
               && rest[k] == EntryAt(rest[k].orderInPath - 1, m[codes[..|codes| - 1][rest[k].orderInPath - 1]], lpd)
    ensures forall k :: 0 <= k < |rest| ==>
              && rest[k].orderInPath < |codes|
              && codes[rest[k].orderInPath - 1] in m
              && rest[k] == EntryAt(rest[k].orderInPath - 1, m[codes[rest[k].orderInPath - 1]], lpd)
  {
    forall k | 0 <= k < |rest|
      ensures codes[rest[k].orderInPath - 1] == codes[..|codes| - 1][rest[k].orderInPath - 1]
    {
    }
  }

  /** The first three entries of the path are open, the rest locked. */
  lemma OnlyFirstThreeOpen(codes: seq<Code>, m: map<Code, string>, lpd: Option<nat>, k: nat)
    requires lpd.Some? ==> lpd.value > 0
    requires k < |Entries(codes, m, lpd)|
    ensures var e := Entries(codes, m, lpd)[k];
            (e.isLocked <==> e.orderInPath > 3) && (e.unlockedNow <==> !e.isLocked) && !e.completed
  {
  }

  /**
   * Day and position give back the place in the path: positions run from 1
   * to the lessons per day, and `(day - 1) * lessonsPerDay + position` is the
   * order in the path.
   */
  lemma DayPositionRoundTrip(i: nat, lessonId: string, lpd: nat)
    requires lpd > 0
    ensures var e := EntryAt(i, lessonId, Some(lpd));
            && e.dayNumber.Some? && e.positionInDay.Some?
            && 1 <= e.positionInDay.value <= lpd
            && (e.dayNumber.value - 1) * lpd + e.positionInDay.value == e.orderInPath
  {
  }

  /** A flexible pace plans no days. */
  lemma FlexibleHasNoDays(codes: seq<Code>, m: map<Code, string>, k: nat)
    requires k < |Entries(codes, m, None)|
    ensures Entries(codes, m, None)[k].dayNumber.None? && Entries(codes, m, None)[k].positionInDay.None?
  {
  }

  /** A path configuration: the planned lesson count and the codes in path order. */
  datatype PathConfig = PathConfig(totalLessons: nat, codes: seq<Code>)

  datatype PathResult = PathResult(
    totalLessons: nat,
    estimatedDays: Option<nat>,
    storedLessonsPerDay: nat,
    firstLessons: seq<Code>,
    entries: seq<PathEntry>,
    replacesProgress: bool)

  /**
   * The path planned from a code map `m` of the fetched lessons: fails when the
   * profile update or the lesson fetch fails; with no stored lessons it plans
   * no entries; otherwise it replaces the user's progress with the entries the
   * map resolves, unless none does.
   */
  function PlanPath(config: PathConfig, p: Pace, profileFailed: bool, fetched: Result<seq<DbLesson>>,
                    m: map<Code, string>): (r: Result<PathResult>)
    ensures r.Failed? <==> profileFailed || fetched.Failed?
    ensures r.Ok? ==>
      && r.value.totalLessons == config.totalLessons
      && r.value.estimatedDays == EstimatedDays(config.totalLessons, p)
      && r.value.storedLessonsPerDay == StoredLessonsPerDay(p)
      && r.value.firstLessons == config.codes[..if |config.codes| < 3 then |config.codes| else 3]
      && (|fetched.value| == 0 ==> r.value.entries == [] && !r.value.replacesProgress)
      && (r.value.replacesProgress <==> |r.value.entries| > 0)
      && (|fetched.value| > 0 ==> r.value.entries == Entries(config.codes, m, LessonsPerDay(p)))
  {
    if profileFailed || fetched.Failed? then Failed
    else
      var first := config.codes[..if |config.codes| < 3 then |config.codes| else 3];
      var entries := if |fetched.value| == 0 then [] else Entries(config.codes, m, LessonsPerDay(p));
      Ok(PathResult(config.totalLessons, EstimatedDays(config.totalLessons, p), StoredLessonsPerDay(p), first, entries, |entries| > 0))
  }

  /** `createUserLearningPath` as written: the path is resolved through the 0-based code map. */
  function CreatePath(config: PathConfig, p: Pace, profileFailed: bool, fetched: Result<seq<DbLesson>>): (r: Result<PathResult>)
    ensures r.Failed? <==> profileFailed || fetched.Failed?
    ensures r.Ok? ==>
      && r.value.totalLessons == config.totalLessons
      && r.value.estimatedDays == EstimatedDays(config.totalLessons, p)
      && r.value.storedLessonsPerDay == StoredLessonsPerDay(p)
      && r.value.firstLessons == config.codes[..if |config.codes| < 3 then |config.codes| else 3]
      && (|fetched.value| == 0 ==> r.value.entries == [] && !r.value.replacesProgress)
      && (r.value.replacesProgress <==> |r.value.entries| > 0)
      && (|fetched.value| > 0 ==> r.value.entries == Entries(config.codes, CodeMapAsWritten(fetched.value), LessonsPerDay(p)))
  {
    PlanPath(config, p, profileFailed, fetched, if fetched.Ok? then CodeMapAsWritten(fetched.value) else map[])
  }

  /**
   * As written, a path over codes 1.1, 1.2, 1.3 and lessons seeded with
   * order_index 1 and 2 schedules the first lesson twice, at places 1 and 2.
   */
  lemma AsWrittenPathRepeatsFirstLesson(config: PathConfig, p: Pace, ls: seq<DbLesson>)
    requires ls == [DbLesson("lesson-a", Some(1)), DbLesson("lesson-b", Some(2))]
    requires config.codes == [Code(1, 1), Code(1, 2), Code(1, 3)]
    ensures var r := CreatePath(config, p, false, Ok(ls));
            && r.Ok? && |r.value.entries| == 3
            && r.value.entries[0].lessonId == r.value.entries[1].lessonId == "lesson-a"
  {
    AsWrittenMapsTwoCodesToOneLesson(ls);
    assert OrderOf(ls[1]) == 2 && CodeOf(2) == Code(1, 3);
    SharedCodeRepeatsLesson(config, p, ls);
  }

  /** When the as-written map resolves all three codes and the first two to one lesson, the path schedules it twice. */
  lemma SharedCodeRepeatsLesson(config: PathConfig, p: Pace, ls: seq<DbLesson>)
    requires |ls| > 0 && config.codes == [Code(1, 1), Code(1, 2), Code(1, 3)]
    requires var m := CodeMapAsWritten(ls);
             && Code(1, 1) in m && Code(1, 2) in m && Code(1, 3) in m
             && m[Code(1, 1)] == m[Code(1, 2)]
    ensures var r := CreatePath(config, p, false, Ok(ls));
            && r.Ok? && |r.value.entries| == 3
            && r.value.entries[0].lessonId == r.value.entries[1].lessonId == CodeMapAsWritten(ls)[Code(1, 1)]
  {
    var m := CodeMapAsWritten(ls);
    assert forall i :: 0 <= i < |config.codes| ==> config.codes[i] in m;
    EntryLesson(config.codes, m, LessonsPerDay(p), 0);
    EntryLesson(config.codes, m, LessonsPerDay(p), 1);
  }

  /** `createUserLearningPath` as intended: the path is resolved through the code map that reads the 1-based seeding. */
  function CreatePathIntended(config: PathConfig, p: Pace, profileFailed: bool, fetched: Result<seq<DbLesson>>): (r: Result<PathResult>)
    ensures r.Failed? <==> profileFailed || fetched.Failed?
    ensures r.Ok? ==>
      && r.value.totalLessons == config.totalLessons
      && r.value.estimatedDays == EstimatedDays(config.totalLessons, p)
      && r.value.storedLessonsPerDay == StoredLessonsPerDay(p)
      && r.value.firstLessons == config.codes[..if |config.codes| < 3 then |config.codes| else 3]
      && (|fetched.value| == 0 ==> r.value.entries == [] && !r.value.replacesProgress)
      && (r.value.replacesProgress <==> |r.value.entries| > 0)
      && (|fetched.value| > 0 ==> r.value.entries == Entries(config.codes, CodeMap(fetched.value), LessonsPerDay(p)))
  {
    PlanPath(config, p, profileFailed, fetched, if fetched.Ok? then CodeMap(fetched.value) else map[])
  }

  /** When every code resolves, the entry at place `k + 1` schedules the lesson of code `k`. */
  lemma EntryLesson(codes: seq<Code>, m: map<Code, string>, lpd: Option<nat>, k: nat)
    requires lpd.Some? ==> lpd.value > 0
    requires forall i :: 0 <= i < |codes| ==> codes[i] in m
    requires k < |codes|
    ensures k < |Entries(codes, m, lpd)| && Entries(codes, m, lpd)[k].lessonId == m[codes[k]]
  {
    var es := Entries(codes, m, lpd);
    assert es[k].orderInPath == k + 1;
  }

  /**
   * With the lessons seeded in order and every code naming a seeded position,
   * the intended path has one entry per code, and the entry at place `k`
   * schedules lesson `IndexOf(code k)`: no lesson is scheduled twice.
   */
  lemma SeededPathIsComplete(config: PathConfig, p: Pace, lessons: seq<DbLesson>)
    requires SeededInOrder(lessons) && |lessons| > 0
    requires forall i :: 0 <= i < |config.codes| ==> 0 <= IndexOf(config.codes[i]) < |lessons| && CodeOf(IndexOf(config.codes[i])) == config.codes[i]
    ensures var r := CreatePathIntended(config, p, false, Ok(lessons));
            && r.Ok? && |r.value.entries| == |config.codes|
            && forall k :: 0 <= k < |config.codes| ==>
                 r.value.entries[k].lessonId == lessons[IndexOf(config.codes[k])].id
  {
    var m := CodeMap(lessons);
    var lpd := LessonsPerDay(p);
    forall i | 0 <= i < |config.codes|
      ensures config.codes[i] in m && m[config.codes[i]] == lessons[IndexOf(config.codes[i])].id
    {
      CodeMapResolvesPositions(lessons, IndexOf(config.codes[i]));
    }
    var es := Entries(config.codes, m, lpd);
    assert |es| == |config.codes|;
    forall k | 0 <= k < |es|
      ensures es[k].lessonId == lessons[IndexOf(config.codes[k])].id
    {
      EntryLesson(config.codes, m, lpd, k);
    }
    var r := CreatePathIntended(config, p, false, Ok(lessons));
    assert r.value.entries == es;
  }

  // ---------------------------------------------------------------------------
  // Unlocking the next lessons

  /** A stored path row as `unlockNextLessons` reads it. */
  datatype PathRow = PathRow(lessonId: string, isLocked: bool, orderInPath: Option<int>)

  /** `.single()` on the completed lesson's row: exactly one match, or nothing. */
  function SingleRow(rows: seq<PathRow>, lessonId: string): (r: Option<PathRow>)
    ensures r.Some? ==> r.value in rows && r.value.lessonId == lessonId
  {
    var hits := Filter(rows, lessonId);
    if |hits| == 1 then Some(hits[0]) else None
  }

  function Filter(rows: seq<PathRow>, lessonId: string): (r: seq<PathRow>)
    ensures forall x :: x in r ==> x in rows && x.lessonId == lessonId
  {
    if |rows| == 0 then []
    else (if rows[0].lessonId == lessonId then [rows[0]] else []) + Filter(rows[1..], lessonId)
  }

  predicate IsCandidate(r: PathRow, after: int) {
    r.isLocked && r.orderInPath.Some? && r.orderInPath.value > after
  }

  function Candidates(rows: seq<PathRow>, after: int): (r: seq<PathRow>)
    ensures forall x :: x in r ==> x in rows && IsCandidate(x, after)
    ensures forall x :: x in rows && IsCandidate(x, after) ==> x in r
    ensures multiset(r) <= multiset(rows)
  {
    if |rows| == 0 then []
    else
      var rest := Candidates(rows[1..], after);
      assert rows == [rows[0]] + rows[1..];
      if IsCandidate(rows[0], after) then [rows[0]] + rest else rest
  }

  function Key(r: PathRow): int {
    if r.orderInPath.Some? then r.orderInPath.value else 0
  }

  predicate SortedByOrder(s: seq<PathRow>) {
    forall i, j :: 0 <= i < j < |s| ==> Key(s[i]) <= Key(s[j])
  }

  function Insert(x: PathRow, s: seq<PathRow>): (r: seq<PathRow>)
    requires SortedByOrder(s)
    ensures SortedByOrder(r)
    ensures multiset(r) == multiset(s) + multiset{x}
  {
    if |s| == 0 then [x]
    else if Key(x) <= Key(s[0]) then [x] + s
    else
      var rest := Insert(x, s[1..]);
      InsertHeadBound(x, s, rest);
      assert s == [s[0]] + s[1..];
      [s[0]] + rest
  }

  /** The head of a sorted sequence bounds every element of an insertion into its tail that comes after it. */
  lemma InsertHeadBound(x: PathRow, s: seq<PathRow>, rest: seq<PathRow>)
    requires |s| > 0 && SortedByOrder(s) && Key(s[0]) < Key(x)
    requires multiset(rest) == multiset(s[1..]) + multiset{x}
    ensures forall j :: 0 <= j < |rest| ==> Key(s[0]) <= Key(rest[j])
  {
    forall j | 0 <= j < |rest|
      ensures Key(s[0]) <= Key(rest[j])
    {
      assert rest[j] in multiset(rest);
      if rest[j] != x {
        assert rest[j] in multiset(s[1..]);
        var k :| 0 <= k < |s[1..]| && s[1..][k] == rest[j];
        assert s[k + 1] == rest[j];
      }
    }
  }

  /** `order('order_in_path', ascending)`: a permutation sorted by the path order. */
  function SortByOrder(s: seq<PathRow>): (r: seq<PathRow>)
    ensures SortedByOrder(r)
    ensures multiset(r) == multiset(s)
  {
    if |s| == 0 then [] else
      assert s == [s[0]] + s[1..];
      Insert(s[0], SortByOrder(s[1..]))
  }

  /** The rows `unlockNextLessons` selects: the first `limit` locked rows after the completed one, in path order. */
  function NextToUnlock(rows: seq<PathRow>, after: int, limit: nat): (r: seq<PathRow>)
    ensures |r| <= limit
    ensures forall x :: x in r ==> x in rows && IsCandidate(x, after)
    ensures SortedByOrder(r)
  {
    var c := Candidates(rows, after);
    var sorted := SortByOrder(c);
    var n := if |sorted| < limit then |sorted| else limit;
    SortedPrefix(c, sorted, n);
    sorted[..n]
  }

  /** A prefix of a sorted permutation of `c` is sorted and holds only elements of `c`. */
  lemma SortedPrefix(c: seq<PathRow>, sorted: seq<PathRow>, n: nat)
    requires SortedByOrder(sorted) && multiset(sorted) == multiset(c) && n <= |sorted|
    ensures SortedByOrder(sorted[..n])
    ensures forall x :: x in sorted[..n] ==> x in c
  {
    forall x | x in sorted[..n]
      ensures x in c
    {
      assert x in multiset(sorted);
    }
  }

  /** The selection takes the earliest candidates: any candidate left out comes no earlier than every one taken. */
  lemma NextToUnlockTakesEarliest(rows: seq<PathRow>, after: int, limit: nat, x: PathRow, y: PathRow)
    requires x in NextToUnlock(rows, after, limit)
    requires y in rows && IsCandidate(y, after) && y !in NextToUnlock(rows, after, limit)
    ensures Key(x) <= Key(y)
  {
    var sorted := SortByOrder(Candidates(rows, after));
    var n := if |sorted| < limit then |sorted| else limit;
    assert y in multiset(Candidates(rows, after));
    assert y in sorted;
    var j :| 0 <= j < |sorted| && sorted[j] == y;
    var i :| 0 <= i < n && sorted[i] == x;
    if j < n {
      assert false;
    }
  }

  /** The selection is as long as it can be: `limit` rows, or every candidate when there are fewer. */
  lemma NextToUnlockLength(rows: seq<PathRow>, after: int, limit: nat)
    ensures var c := Candidates(rows, after);
            |NextToUnlock(rows, after, limit)| == if |c| < limit then |c| else limit
  {
    var c := Candidates(rows, after);
    assert |multiset(SortByOrder(c))| == |multiset(c)|;
  }

  function NonNegative(x: int): nat {
    if x < 0 then 0 else x
  }

  /** The stored path after unlocking: every row whose lesson was selected is unlocked, nothing else changes. */
  function Unlock(rows: seq<PathRow>, ids: set<string>): (r: seq<PathRow>)
    ensures |r| == |rows|
    ensures forall i :: 0 <= i < |r| ==>
              r[i].lessonId == rows[i].lessonId && r[i].orderInPath == rows[i].orderInPath
              && r[i].isLocked == (rows[i].isLocked && rows[i].lessonId !in ids)
  {
    seq(|rows|, i requires 0 <= i < |rows| => rows[i].(isLocked := rows[i].isLocked && rows[i].lessonId !in ids))
  }

  /**
   * `unlockNextLessons`: nothing happens unless the completed lesson has
   * exactly one row with a non-zero place in the path; otherwise the first
   * `lessons_per_day + 2` locked lessons after it (4 per day when unset) are
   * unlocked.
   */
  function UnlockNext(rows: seq<PathRow>, storedLessonsPerDay: Option<int>, completedLessonId: string): (r: seq<PathRow>)
    ensures |r| == |rows|
    ensures forall i :: 0 <= i < |r| ==> r[i].lessonId == rows[i].lessonId && r[i].orderInPath == rows[i].orderInPath
    ensures forall i :: 0 <= i < |r| && !rows[i].isLocked ==> !r[i].isLocked
    ensures (SingleRow(rows, completedLessonId).None? || OrInt(SingleRow(rows, completedLessonId).value.orderInPath, 0) == 0)
            ==> r == rows
    ensures var done := SingleRow(rows, completedLessonId);
            done.Some? && OrInt(done.value.orderInPath, 0) != 0 ==>
              var next := NextToUnlock(rows, done.value.orderInPath.value, NonNegative(OrInt(storedLessonsPerDay, 4) + 2));
              r == Unlock(rows, set x | x in next :: x.lessonId)
  {
    var done := SingleRow(rows, completedLessonId);
    if done.None? || OrInt(done.value.orderInPath, 0) == 0 then rows
    else
      var limit := OrInt(storedLessonsPerDay, 4) + 2;
      var next := NextToUnlock(rows, done.value.orderInPath.value, NonNegative(limit));
      Unlock(rows, set x | x in next :: x.lessonId)
  }

  /** After unlocking, a locked row later in the path than the completed one is not earlier than any unlocked candidate. */
  lemma UnlockNextUnlocksAfterCompleted(rows: seq<PathRow>, storedLessonsPerDay: Option<int>, completedLessonId: string, i: nat)
    requires i < |rows|
    requires rows[i].isLocked && !UnlockNext(rows, storedLessonsPerDay, completedLessonId)[i].isLocked
    ensures var done := SingleRow(rows, completedLessonId);
            done.Some? && OrInt(done.value.orderInPath, 0) != 0
            && exists x :: x in rows && x.lessonId == rows[i].lessonId && IsCandidate(x, done.value.orderInPath.value)
  {
    var done := SingleRow(rows, completedLessonId);
    var limit := OrInt(storedLessonsPerDay, 4) + 2;
    var next := NextToUnlock(rows, done.value.orderInPath.value, NonNegative(limit));
    var x :| x in next && x.lessonId == rows[i].lessonId;
  }
}
