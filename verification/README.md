# A verified model of a gamified trading-education app

The application teaches stock trading through short lessons. It keeps a
per-user lesson path and a paper-trading portfolio, and it rewards progress
with XP, coins, levels, streaks, badges and a monthly league. Its decisions
sit inside React hooks and components. Each one reads rows from a hosted
store, computes new values and writes them back. This project takes out the
store and the UI and keeps the decisions. Each becomes a pure Dafny function
over explicit state, and the properties the code promises are proved about
those functions.

One module per source file:

- `LessonProgress` (lesson_progress.dfy) models the lesson sequencer and
  reward engine:
  - progress map and lock/current annotation;
  - progress-row write;
  - reward, level-up, streak and counters.
- `LevelTable` (level_table.dfy) models the level lookup over the `LEVELS`
  table, a left fold keeping the last reached entry.
- `LevelGated` (level_gated.dfy) models the separate level-gated unlock
  policy:
  - counts of completed beginner and intermediate lessons;
  - pass mark, promotion and badges;
  - progress summary.
- `Catalogue` (catalogue.dfy) models the ten-lesson catalogue, the
  well-formedness of its quiz steps and the identity JSONB conversion.
- `LearnPage` (learn_page.dfy) models the lesson page working on the local
  catalogue: lesson ids, the click gate with defaults, and the completion
  handler.
- `LearningPath` (learning_path.dfy) models learning-path creation:
  - pace table;
  - code ⇄ order-index mapping;
  - day/position assignment;
  - the path as written and as intended (see Findings);
  - the initial lock window;
  - "unlock the next lessons".
- `Portfolio` (portfolio.dfy) models buy and sell with their guards, the
  weighted-average cost, and holding/portfolio valuation.
- `League` (league.dfy) models the monthly league:
  - row defaults and joining;
  - monthly XP;
  - member ranking;
  - end-of-month notifications.
- `StatsHeader`, `FixedLevels` and `PathDisplay` model the three level
  displays and the lesson path display.
- `Watchlist`, `VideoManager`, `UserManagement`, `Settings`, `Onboarding`,
  `TreasureChest` and `TimerWidget` model the smaller list and record
  operations.
- `Common` holds JavaScript's `||` defaults, `Math.max`, its truncating `%`, decimal
  rendering and parsing, ASCII lower-casing and substring search.

Representation choices:

- Calendar dates are integer day numbers and timestamps are integers.
- Money, share counts, average costs and percentages are `real`.
- Nullable columns are `Option`.
- A store call that can fail is an input (`Result` or a failure flag).
- Tables the code imports from modules outside this model are parameters:
  - the `LEVELS` level table;
  - the league constants `LEAGUE_SIZE`, `PROMOTION_ZONE`, `DEMOTION_ZONE`;
  - the quote list of `mockStocks`;
  - the path configuration.

## Model

| member | source | states |
|---|---|---|
| LessonProgress.ProgressMap | src/hooks/useLessonProgress.ts:44-47 | every fetched row's lesson is in the map; each entry is a row of that lesson; a lesson with a single (or last) row maps to that row |
| LessonProgress.Annotate | src/hooks/useLessonProgress.ts:50-81 | same length and order as the lessons; completed iff the progress status is completed or mastered; the first lesson is never locked; any other lesson is locked iff neither it nor its predecessor is completed |
| LessonProgress.PrefixDoneMeansAll | src/hooks/useLessonProgress.ts:68-72 | the running "all earlier lessons done" flag holds iff every earlier lesson is completed or mastered |
| LessonProgress.CurrentIsFirstIncomplete | src/hooks/useLessonProgress.ts:68-72 | a lesson is current iff it is not completed and every lesson before it is |
| LessonProgress.AtMostOneCurrent | src/hooks/useLessonProgress.ts:68-72 | no two lessons are current at once |
| LessonProgress.SomeCurrentUnlessAllDone | src/hooks/useLessonProgress.ts:68-72 | whenever some lesson is incomplete, a current lesson exists at or before it |
| LessonProgress.StoredLockIgnored | src/hooks/useLessonProgress.ts:55-65 | the stored `is_locked` flags have no influence on the computed locks or on the current lesson |
| LessonProgress.UpdateWith | src/hooks/useLessonProgress.ts:112-146 | insert iff no row exists, else update that row; score and time are written only when supplied; `completed_at` and `attempts` (old + 1, or 1 for a new row) only for completed/mastered; a reward is requested iff done, scored and not already completed |
| LessonProgress.SelectIdOnly | src/hooks/useLessonProgress.ts:105-110 | the existence query returns the row's id and no status |
| LessonProgress.UpdateProgressAsWritten | src/hooks/useLessonProgress.ts:95-171 | as written, a reward is requested for every completed or mastered call with a score, whatever was stored |
| LessonProgress.AsWrittenRegrantsOnRecompletion | src/hooks/useLessonProgress.ts:105-146 | a lesson already stored as completed asks for its reward again when completed again |
| LessonProgress.UpdateProgress | src/hooks/useLessonProgress.ts:95-171 | with the status selected, a reward is requested iff done, scored, and the stored row was not already completed or mastered |
| LessonProgress.ApplyWrite | src/hooks/useLessonProgress.ts:134-143 | an update keeps every stored column the patch leaves out; status and lesson come from the patch |
| LessonProgress.RecompletionRequestsNoReward | src/hooks/useLessonProgress.ts:132-146 | once a rewarded completion has been stored, the next call for that lesson requests no reward, whatever its status and score |
| LessonProgress.FailedRetryReopensReward | src/pages/Learn.tsx:105-112 | on a lesson stored as done, a failing retry sends `in_progress` and requests nothing, and a passing completion after it requests the reward again |
| LessonProgress.LessonReward | src/hooks/useLessonProgress.ts:193-200 | XP is `xp_reward` (10 when missing or 0) and coins `coin_reward` (5 when missing or 0), plus 10 XP and 5 coins exactly for a score of 100 |
| LessonProgress.PerfectBonusIsExact | src/hooks/useLessonProgress.ts:196-200 | a perfect score pays exactly 10 XP and 5 coins more than any other score |
| LessonProgress.NextStreak | src/hooks/useLessonProgress.ts:216-234 | same day keeps the streak; the day after the last activity adds one; no activity or a gap resets to 1; a last activity in the future keeps it |
| LessonProgress.SameDayIdempotent | src/hooks/useLessonProgress.ts:216-234 | a second activity on the same day leaves the streak as the first one set it |
| LessonProgress.ConsecutiveDaysStreak | src/hooks/useLessonProgress.ts:216-234 | activities on n consecutive days starting from no history give a streak of n |
| LessonProgress.AwardRewards | src/hooks/useLessonProgress.ts:173-307 | no profile gives a failure; otherwise new totals are old + reward, the new level is the table level of the new XP, `user_level` is written iff the level rose, perfect scores count only at 100, lessons completed +1; the stats row is inserted iff none exists, its longest streak is the max of the new and the stored one (the new one on insert) and its perfect scores are the profile's new count, else the stored one, else 0 |
| LessonProgress.AwardIsMonotone | src/hooks/useLessonProgress.ts:186-213 | with non-negative rewards and a sorted table, XP and coins strictly grow, the level never falls, and "leveled up" means the level changed |
| LessonProgress.PerfectFirstLessonScenario | src/hooks/useLessonProgress.ts:193-200 | a perfect score on a 10 XP / 5 coin lesson pays 20 XP and 10 coins |
| LevelTable.LevelFor | src/hooks/useLessonProgress.ts:188-190 | the level of the last entry whose threshold the XP reaches, or 1 when none is reached |
| LevelTable.LevelForIsGreatestReached | src/components/learning/DuolingoStatsHeader.tsx:16-18 | on a sorted table, no reached entry has a higher level than the one returned |
| LevelTable.LevelForMonotone | src/hooks/useLessonProgress.ts:209-213 | on a sorted table starting at level 1 or more, more XP never gives a lower level |
| LevelGated.CompletedAtLevel | src/hooks/useLessons.ts:68-76 | the completed count of a level is the number of positions holding a lesson of that level whose progress says completed |
| LevelGated.LevelPositionsStep | src/hooks/useLessons.ts:68-76 | the completed positions of a level grow by the last position exactly when that lesson is of the level and completed |
| LevelGated.Views | src/hooks/useLessons.ts:60-106 | one view per lesson in order; XP reward defaults to 10; beginner lessons never locked; intermediate locked iff fewer than 3 beginner completions and a beginner profile; advanced locked unless 3 intermediate completions with intermediate open, or an advanced profile |
| LevelGated.CompletedAtLevelMonotone | src/hooks/useLessons.ts:68-76 | completing more lessons never lowers a level's completed count |
| LevelGated.UnlockIsMonotone | src/hooks/useLessons.ts:79-91 | more completions and a profile level at least as high never lock a lesson that was open |
| LevelGated.Promote | src/hooks/useLessons.ts:168-183 | 2000 XP or more gives advanced, 500 or more leaves beginner behind, below 500 nothing changes, and the level never goes down |
| LevelGated.PromoteMonotone | src/hooks/useLessons.ts:168-183 | more XP never gives a lower promoted level |
| LevelGated.BadgeInserts | src/hooks/useLessons.ts:210-243 | a badge is inserted iff it is a candidate, eligible for the XP, and not already held |
| LevelGated.BadgeCheckIdempotent | src/hooks/useLessons.ts:210-243 | running the badge check again after its inserts inserts nothing |
| LevelGated.FirstLessonAlwaysAwarded | src/hooks/useLessons.ts:213-216 | `first_lesson` is inserted whenever it is not yet held, at any XP |
| LevelGated.CompleteLesson | src/hooks/useLessons.ts:121-208 | no user or an unknown lesson does nothing; otherwise the row is inserted or updated with `completed` = score ≥ 70; XP (old + reward) and promotion happen iff passed and not previously completed; with the XP award the badges inserted are exactly the eligible, unheld ones at the new XP, and none otherwise |
| LevelGated.FailingRetryClearsCompletion | src/hooks/useLessons.ts:127-160 | a failing retry of a completed lesson stores it as not completed and grants nothing |
| LevelGated.ProgressPercent | src/hooks/useLessons.ts:247 | 0 for no lessons; otherwise `100·completed/total` rounded half up, between 0 and 100, exactly 100 when all are done |
| LevelGated.Summarize | src/hooks/useLessons.ts:245-247 | total is the number of lessons; completed is the number of completed positions; the percentage is the rounded share of completed lessons, in [0, 100] |
| LevelGated.CountCompleted | src/hooks/useLessons.ts:245 | the count is the number of positions holding a completed lesson |
| LevelGated.CompletedPositionsStep | src/hooks/useLessons.ts:245 | the completed positions grow by the last position exactly when that lesson is completed |
| LevelGated.AllCompletedIsFull | src/hooks/useLessons.ts:245-247 | a list whose every lesson is completed counts all of them and, when non-empty, shows 100% |
| Catalogue.ToJsonb | src/data/lessons1to10.ts:946-948 | the content is returned element for element unchanged |
| Catalogue.QuestionCountIsPositions | src/data/lessons1to10.ts:7-943 | the question count of a lesson is the number of its steps that ask something |
| Catalogue.QuestionCountAppend | src/data/lessons1to10.ts:7-943 | the question count of two step lists joined is the sum of their counts |
| Catalogue.McWellFormed | src/data/lessons1to10.ts:27-55 | a four-option multiple-choice step has exactly one correct option |
| Catalogue.DragDropWellFormed | src/data/lessons1to10.ts:118-133 | in lesson 2's drag-and-drop step there are as many items as targets, every item's match is a target and no two items share one, so items and targets correspond one to one |
| Catalogue.ContentsWellFormed | src/data/lessons1to10.ts:7-943 | every lesson's steps are well formed and its completion summary's XP and coins equal the row's rewards |
| Catalogue.CatalogueChained | src/data/lessons1to10.ts:951-1123 | ten rows; `order_index` runs 1..10 in order; only the first is unlocked with no requirement; every later one requires `complete_lesson_` + its predecessor's number |
| Catalogue.CatalogueRows | src/data/lessons1to10.ts:951-1123 | every row is in module 1, beginner level, with a pass mark of 70 |
| Catalogue.CatalogueContents | src/data/lessons1to10.ts:951-1123 | every row's content is well formed and its summary agrees with the row's XP and coin rewards |
| Catalogue.CatalogueNumbersDistinct | src/data/lessons1to10.ts:951-1123 | no two rows share a lesson number |
| LearnPage.LocalIdInjective | src/pages/Learn.tsx:36 | two entries with the same `lesson-{module}-{day}-{number}` id have the same module, day and lesson number |
| LearnPage.LocalLessons | src/pages/Learn.tsx:33-63 | one lesson per catalogue row in order, none completed; the first is open and current; every other takes the catalogue lock and is not current |
| LearnPage.OnlyFirstLessonOpens | src/pages/Learn.tsx:33-63 | over the shipped catalogue exactly the first lesson is open |
| LearnPage.CatalogueIdsDistinct | src/pages/Learn.tsx:36 | the shipped catalogue's local lessons have pairwise distinct ids |
| LearnPage.Click | src/pages/Learn.tsx:70-99 | a locked lesson is never selected; an open one is selected with its id and pass mark, XP and coins defaulting to 70, 10 and 5 |
| LearnPage.SelectedLessonIsFound | src/pages/Learn.tsx:70-114 | a lesson selected by a click is found again by the completion handler |
| LearnPage.ShownRewardMatchesEngine | src/pages/Learn.tsx:116-123 | the page's reward formula equals the progress hook's formula applied to the same XP and coin values and score |
| LearnPage.Complete | src/pages/Learn.tsx:100-169 | the status sent is completed iff the score reaches the pass mark; a reward is shown iff saved, passed and found; a level-up is shown iff a reward is shown, a profile exists and its table level exceeds `user_level` (default 1); a save error clears nothing |
| LearningPath.LessonsPerDay | src/lib/createUserLearningPath.ts:37-43 | flexible has no daily count; the other paces have 2, 4, 6 or 8 |
| LearningPath.PaceOrdered | src/lib/createUserLearningPath.ts:37-43 | relaxed < standard < intensive < accelerated |
| LearningPath.CeilDiv | src/lib/createUserLearningPath.ts:46-48 | the least multiple count covering `a`: `r·b ≥ a` and `(r−1)·b < a` |
| LearningPath.EstimatedDays | src/lib/createUserLearningPath.ts:46-48 | none for flexible; otherwise the fewest days at the pace that cover every lesson |
| LearningPath.StoredLessonsPerDay | src/lib/createUserLearningPath.ts:57 | the stored daily count is the pace's, or 4 for flexible |
| LearningPath.CodeRoundTrip | src/lib/createUserLearningPath.ts:96-109 | for a non-negative order index, reading its code back gives the index, with the lesson part in 1..10 |
| LearningPath.CodeOfInjective | src/lib/createUserLearningPath.ts:103-109 | distinct non-negative order indices have distinct codes |
| LearningPath.NegativeIndexDoesNotRoundTrip | src/lib/createUserLearningPath.ts:96-109 | with JavaScript's truncating `%`, index −1 gives code 0.0, which reads back as −11 |
| LearningPath.LastWinsSound | src/lib/createUserLearningPath.ts:103-109 | each code in the first-pass map holds the id of the last lesson that produced it |
| LearningPath.ByPosition | src/lib/createUserLearningPath.ts:112-119 | the positional pass keeps every code already assigned and only fills missing codes, each with the lesson at the position the code names |
| LearningPath.CodeMapAsWritten | src/lib/createUserLearningPath.ts:103-119 | as written, every lesson's order-index code and every position's code are mapped |
| LearningPath.AsWrittenMapsTwoCodesToOneLesson | src/lib/createUserLearningPath.ts:103-119 | for lessons seeded with order_index 1 and 2, codes 1.1 and 1.2 both resolve to the first lesson |
| LearningPath.CodeMap | src/lib/createUserLearningPath.ts:103-119 | with the 1-based seeding taken into account, every lesson's code and every position's code are mapped |
| LearningPath.CodeMapResolvesPositions | src/lib/createUserLearningPath.ts:103-119 | for lessons seeded 1..n in order, the code of position i resolves to lesson i |
| LearningPath.Entries | src/lib/createUserLearningPath.ts:122-148 | codes with no lesson are dropped, none otherwise; each entry is built from its code's position and lesson; `order_in_path` strictly increases |
| LearningPath.EntriesCoverResolved | src/lib/createUserLearningPath.ts:122-148 | every code that resolves has an entry whose `order_in_path` is that code's place |
| LearningPath.OnlyFirstThreeOpen | src/lib/createUserLearningPath.ts:136-144 | an entry is locked iff its `order_in_path` exceeds 3, unlocked now iff open, and never completed |
| LearningPath.DayPositionRoundTrip | src/lib/createUserLearningPath.ts:130-135 | with a daily count, the position is in 1..count and `(day−1)·count + position` is the entry's `order_in_path` |
| LearningPath.FlexibleHasNoDays | src/lib/createUserLearningPath.ts:130-135 | the flexible pace leaves day and position empty |
| LearningPath.CreatePath | src/lib/createUserLearningPath.ts:24-176 | as written: fails iff the profile update or the lesson fetch fails; reports totals, estimated days, the stored daily count and the first three codes; no lessons gives no entries and leaves progress alone; otherwise the entries are those the 0-based code map resolves |
| LearningPath.PlanPath | src/lib/createUserLearningPath.ts:24-176 | the path over a given code map: failure iff a store step fails, the reported totals, and entries resolved through that map |
| LearningPath.AsWrittenPathRepeatsFirstLesson | src/lib/createUserLearningPath.ts:103-148 | as written, codes 1.1, 1.2, 1.3 over lessons seeded 1 and 2 schedule the first lesson at both places 1 and 2 |
| LearningPath.SharedCodeRepeatsLesson | src/lib/createUserLearningPath.ts:121-148 | whenever the as-written map resolves codes 1.1 and 1.2 to one lesson, the path schedules that lesson twice |
| LearningPath.CreatePathIntended | src/lib/createUserLearningPath.ts:24-176 | corrected: the same outcome as written, with the entries resolved through the code map that reads the 1-based seeding |
| LearningPath.EntryLesson | src/lib/createUserLearningPath.ts:121-148 | when every code resolves, the entry at place k + 1 schedules the lesson of code k |
| LearningPath.SeededPathIsComplete | src/lib/createUserLearningPath.ts:103-148 | in the corrected path, when every configured code names a seeded position, every code becomes an entry and the entry at place k schedules the lesson at the position code k names |
| LearningPath.Candidates | src/lib/createUserLearningPath.ts:206-216 | exactly the locked rows with a larger `order_in_path`, each at most as often as stored |
| LearningPath.SortByOrder | src/lib/createUserLearningPath.ts:209-216 | a permutation of the rows, sorted by `order_in_path` |
| LearningPath.NextToUnlock | src/lib/createUserLearningPath.ts:206-216 | at most the limit, only candidates, in `order_in_path` order |
| LearningPath.NextToUnlockTakesEarliest | src/lib/createUserLearningPath.ts:209-216 | every candidate left out comes no earlier than every one chosen |
| LearningPath.NextToUnlockLength | src/lib/createUserLearningPath.ts:209-216 | as many as the limit, or every candidate when there are fewer |
| LearningPath.Unlock | src/lib/createUserLearningPath.ts:219-232 | exactly the selected rows are unlocked and nothing else changes |
| LearningPath.UnlockNext | src/lib/createUserLearningPath.ts:182-233 | no open row is locked, rows keep their lesson and order, a completed lesson without `order_in_path` changes nothing; otherwise exactly the rows of the first (stored lessons per day, default 4) + 2 locked candidates after it, earliest first, are unlocked |
| LearningPath.UnlockNextUnlocksAfterCompleted | src/lib/createUserLearningPath.ts:193-216 | a row is newly unlocked only when the completed lesson has a position and the row is a locked candidate after it |
| Portfolio.FindHolding | src/hooks/usePortfolio.ts:177 | the first holding of the symbol, or none when no holding has it |
| Portfolio.Grow | src/hooks/usePortfolio.ts:177-189 | shares add up and the cost basis grows by exactly what the buy paid, so the average is the weighted mean |
| Portfolio.Shrink | src/hooks/usePortfolio.ts:216-222 | a sell removes shares at the unchanged average cost |
| Portfolio.BuyStep | src/hooks/usePortfolio.ts:159-198 | a buy is refused iff it costs more than the cash; otherwise the cash drops by exactly the cost |
| Portfolio.SellStep | src/hooks/usePortfolio.ts:200-225 | a sell is refused iff there is no holding or too few shares; otherwise the cash grows by exactly the value |
| Portfolio.HoldingsAfterBuy | src/hooks/usePortfolio.ts:177-198 | a held symbol keeps the number of holdings, a new one adds a holding of the symbol at the end; the holdings of every other symbol are unchanged |
| Portfolio.HoldingsAfterSell | src/hooks/usePortfolio.ts:216-225 | a holding sold down to zero or below is removed; otherwise it keeps its place with the sold shares deducted; the holdings of every other symbol are unchanged |
| Portfolio.OfSymbolUpdate | src/hooks/usePortfolio.ts:177-190 | replacing a holding of another symbol by one of another symbol leaves a symbol's holdings alone |
| Portfolio.OfSymbolRemove | src/hooks/usePortfolio.ts:216-220 | removing a holding of another symbol leaves a symbol's holdings alone |
| Portfolio.ExecuteTrade | src/hooks/usePortfolio.ts:156-245 | no user or portfolio refuses; a buy or sell goes through its branch; an executed trade moves cash by exactly its value, records symbol, side, type, shares, price and total, and leaves the holdings of every other symbol unchanged |
| Portfolio.BuyConservesValue | src/hooks/usePortfolio.ts:159-198 | a buy leaves cash plus total cost basis unchanged and adds exactly its shares to the symbol |
| Portfolio.SellRemovesShares | src/hooks/usePortfolio.ts:200-225 | a sell removes exactly its shares from the symbol's holdings |
| Portfolio.SellRemovesCost | src/hooks/usePortfolio.ts:216-225 | a sell lowers the total cost basis by its shares at the holding's average cost |
| Portfolio.TradePreservesWf | src/hooks/usePortfolio.ts:216-225 | after any trade every stored holding still has a positive share count: sold-out holdings are deleted |
| Portfolio.BuyNeverOverdraws | src/hooks/usePortfolio.ts:159-174 | a buy never takes the cash below zero |
| Portfolio.CurrentPrice | src/hooks/usePortfolio.ts:98-99 | the quoted price when the symbol has a non-zero quote, else the average cost |
| Portfolio.Value | src/hooks/usePortfolio.ts:97-115 | value is shares × price; pnl is shares × (price − average cost); the percentage is pnl over basis × 100, and 0 with no basis |
| Portfolio.UnquotedHasNoPnl | src/hooks/usePortfolio.ts:98-103 | a holding without a quote has no profit or loss |
| Portfolio.ProfitIffAboveCost | src/hooks/usePortfolio.ts:100-102 | a holding shows a profit iff its price is above its average cost |
| Portfolio.Summarize | src/hooks/usePortfolio.ts:117-128 | total value is cash plus every holding's value; total pnl is value minus cost basis, and its percentage is relative to that basis |
| Portfolio.TotalPnlIsSumOfPnls | src/hooks/usePortfolio.ts:117-119 | the total pnl equals the sum of the holdings' pnl |
| League.ReadRow | src/hooks/useLeague.ts:89-105 | the month comes from the week column; a missing rank reads as `LEAGUE_SIZE`, missing XP and counters as 0, a missing highest league as Bronze |
| League.ReadRowKeepsStoredValues | src/hooks/useLeague.ts:96-98 | stored non-zero rank and XP are read back unchanged |
| League.Join | src/hooks/useLeague.ts:156-196 | no user inserts nothing; otherwise a Bronze row with 0 XP and rank `LEAGUE_SIZE` is inserted, and on success the state starts at Bronze with every counter 0 |
| League.JoinAgreesWithRead | src/hooks/useLeague.ts:179-194 | the state set after joining is what reading back the inserted row gives |
| League.UpdateMonthlyXp | src/hooks/useLeague.ts:199-218 | writes old + gained iff signed in with a league row; local state changes to that total only when the write succeeds |
| League.UpdatesAccumulate | src/hooks/useLeague.ts:199-218 | two successful updates add both gains |
| League.Members | src/hooks/useLeague.ts:110-153 | no rows gives no members; otherwise one member per row in query order, ranked by position, XP defaulting to 0; a member with a profile takes its name (default `Trader`), avatar and level (default 1), one without gets `Trader`, no avatar and level 1 |
| League.RanksFollowXp | src/hooks/useLeague.ts:124-149 | for rows in descending XP order capped at `LEAGUE_SIZE`, a better rank never has less XP and ranks are in 1..`LEAGUE_SIZE` |
| League.NoticeType | src/hooks/useLeague.ts:251-282 | promotion, top 3 and top 10 are success; demotion warning; first place achievement; the plain result info |
| League.ExactlyOneResult | src/hooks/useLeague.ts:297-326 | month end produces exactly one result notice, followed at most by a promotion to the next league, and never both promotion and demotion |
| League.PromotedIff | src/hooks/useLeague.ts:300-320 | a promotion is announced iff a higher league exists and the rank (`LEAGUE_SIZE` when unset) is first or within the promotion zone |
| League.DemotedIff | src/hooks/useLeague.ts:311-322 | a demotion is announced iff a lower league exists and the rank is past 3, past the promotion zone and in the bottom demotion zone |
| League.MonthlyResults | src/hooks/useLeague.ts:297-325 | nothing without a user or a league row; otherwise the first notice carries the final rank (`LEAGUE_SIZE` when unset) and the league, and is first place iff rank 1, top 3 iff another rank up to 3, top 10 iff past 3 and within the promotion zone, demotion (to the previous league) iff past both, in the bottom zone and a lower league exists, the plain result otherwise |
| League.ResultIsMonotone | src/hooks/useLeague.ts:306-325 | between two members of the same league, the better final rank never gets a worse result band |
| League.PromotionIsMonotone | src/hooks/useLeague.ts:306-320 | a better rank never loses a promotion a worse one gets |
| StatsHeader.FindLevel | src/components/learning/DuolingoStatsHeader.tsx:20-21 | the first entry with the level, or none when no entry has it |
| StatsHeader.LevelInfo | src/components/learning/DuolingoStatsHeader.tsx:20 | the entry of the level when present, else the first entry |
| StatsHeader.HeaderFor | src/components/learning/DuolingoStatsHeader.tsx:11-26 | the level is the table level of `xp` (0 when missing); there is no next level iff no table entry is one level up; at the top level nothing is needed, progress is 100 and the bar is hidden; otherwise the XP needed is positive, progress is the covered share of the level's span, and the bar is clamped at 100 |
| StatsHeader.ProgressWithinLevel | src/components/learning/DuolingoStatsHeader.tsx:22-26 | once the first threshold is reached, the progress below a next level is in [0, 100) and the bar shows it unclamped |
| StatsHeader.TopLevelIffLastReached | src/components/learning/DuolingoStatsHeader.tsx:16-23 | on a table numbered 1, 2, 3, …, there is no next level iff the XP reaches the last threshold or the table has one level |
| StatsHeader.PercentBelowHundred | src/components/learning/DuolingoStatsHeader.tsx:24-26 | a partly covered span is a percentage in [0, 100) |
| FixedLevels.StandingFor | src/pages/Dashboard.tsx:17-18 | no profile gives level 1 and no progress; a non-negative XP gives level ≥ 1, progress in [0, size), and `(level−1)·size + progress` = XP |
| FixedLevels.NegativeXpDoesNotAddUp | src/pages/Dashboard.tsx:17-18 | for −50 XP the floor and the truncating remainder give level 0 and progress −50, which do not add back up |
| FixedLevels.LevelMonotone | src/pages/Profile.tsx:104 | more non-negative XP never gives a lower level |
| FixedLevels.DashboardCard | src/pages/Dashboard.tsx:121-130 | the bar is the larger of the progress and 5; the star shows iff progress > 10; progress plus XP-to-next is 100, which lies in (0, 100] |
| FixedLevels.ProfileLevelFor | src/pages/Profile.tsx:102-104 | levels of 500 XP; XP to next level is fixed at 500 and above the progress |
| FixedLevels.FiveDashboardLevelsPerProfileLevel | src/pages/Profile.tsx:104 | the profile level counts the dashboard levels in blocks of five |
| PathDisplay.NodePosition | src/components/learning/DuolingoLearningPath.tsx:13-16 | center at index 0 and 2 mod 4, right at 1, left at 3 |
| PathDisplay.PositionPeriodic | src/components/learning/DuolingoLearningPath.tsx:13-16 | the S-curve repeats every four nodes |
| PathDisplay.OffsetsDistinct | src/components/learning/DuolingoLearningPath.tsx:18-24 | distinct positions have distinct layout classes |
| PathDisplay.Node | src/components/learning/DuolingoPathNode.tsx:19-47 | shown locked iff locked and not current; active iff current, or open and not completed; check icon iff completed; ring 100/70/0; badge (lesson number, else position) iff not shown locked |
| PathDisplay.NodeClick | src/components/learning/DuolingoPathNode.tsx:49-53 | the lesson is handed on iff the node is not shown locked |
| PathDisplay.Path | src/components/learning/DuolingoLearningPath.tsx:42-56 | one entry per lesson; current iff the lesson says so or it is the first and incomplete; a connector after every node but the last |
| PathDisplay.PathAgreesWithAnnotation | src/components/learning/DuolingoLearningPath.tsx:44 | fed from the progress hook, the path's current node and locks are exactly the hook's |
| Watchlist.ShowItem | src/hooks/useWatchlist.ts:64-74 | an item keeps its row's id, symbol and date; an unknown symbol shows its symbol as name and zero figures |
| Watchlist.Target | src/hooks/useWatchlist.ts:102-105 | the given id unless empty, else the first list's id, else none |
| Watchlist.AddToWatchlist | src/hooks/useWatchlist.ts:97-132 | exactly one (target, symbol) insert iff signed in with a target whose list does not already hold the symbol; the result is true iff it inserts |
| Watchlist.AddKeepsListsDuplicateFree | src/hooks/useWatchlist.ts:112-122 | adding through this path never puts a symbol twice in a list |
| Watchlist.CreateWatchlist | src/hooks/useWatchlist.ts:147-166 | the new id iff signed in and the insert succeeds, else none |
| Watchlist.CreatedListIsUsable | src/hooks/useWatchlist.ts:97-166 | after a created list is stored, it is found under its new id with no items, and adding any symbol to it is accepted |
| VideoManager.AddTag | src/components/admin/VideoManager.tsx:184-189 | a non-empty new tag is appended and the input cleared; otherwise tags and input are unchanged |
| VideoManager.AddTagKeepsDistinct | src/components/admin/VideoManager.tsx:184-189 | tags stay free of duplicates |
| VideoManager.RemoveTag | src/components/admin/VideoManager.tsx:191-193 | exactly the other tags remain |
| VideoManager.WithoutAppend | src/components/admin/VideoManager.tsx:191-193 | removal works piecewise, so the remaining tags keep their order |
| VideoManager.RemoveUndoesAdd | src/components/admin/VideoManager.tsx:184-193 | removing a tag just added gives back the original tags |
| VideoManager.RowOf | src/components/admin/VideoManager.tsx:100-112 | an empty or missing thumbnail is stored as null; the other fields are copied |
| VideoManager.HandleSubmit | src/components/admin/VideoManager.tsx:88-153 | no write iff title or URL is empty; an update iff the edited video has an id, else an insert; the form resets exactly after a successful save |
| VideoManager.FormOf | src/components/admin/VideoManager.tsx:178-182 | editing loads the stored title, URL, thumbnail and tags into the form |
| VideoManager.EditThenSubmitRewritesRow | src/components/admin/VideoManager.tsx:88-182 | editing a stored video and saving it unchanged updates that video with its own row and resets the form |
| VideoManager.EditThenSubmitNullsEmptyThumbnail | src/components/admin/VideoManager.tsx:101-105 | an empty stored thumbnail is the one field an unchanged save writes back differently, as null |
| VideoManager.TogglePublished | src/components/admin/VideoManager.tsx:195-206 | the written flag is the negation of `published` |
| UserManagement.FilterUsers | src/components/admin/UserManagement.tsx:57-60 | an order-preserving sublist holding exactly the users whose lower-cased name or id contains the lower-cased term |
| UserManagement.EmptyTermKeepsAll | src/components/admin/UserManagement.tsx:57-60 | an empty term keeps every user, including those without a name |
| UserManagement.FilterIdempotent | src/components/admin/UserManagement.tsx:57-60 | filtering twice by the same term changes nothing |
| UserManagement.LevelBadge | src/components/admin/UserManagement.tsx:62-69 | each known level has its own label, and every other value reads `Non défini` |
| Settings.Shown | src/hooks/useSettings.ts:137 | loaded settings are shown as they are; otherwise the defaults with empty id and user id |
| Settings.FetchSettings | src/hooks/useSettings.ts:77-111 | no user fetches nothing; a missing row triggers a creation for the user; the state becomes the found row, else the created row, and stays on a failure |
| Settings.UpdateSettings | src/hooks/useSettings.ts:117-134 | no user or no settings writes nothing and fails; on success the updated keys take their new values and every other field is unchanged; a write error leaves the settings unchanged |
| Settings.UpdateIdempotent | src/hooks/useSettings.ts:121-129 | applying the same update twice equals applying it once |
| Settings.UpdatesCompose | src/hooks/useSettings.ts:121-129 | two successive updates equal one update with the second's keys taking precedence |
| Settings.ShownAfterUpdate | src/hooks/useSettings.ts:117-137 | after an accepted update every updated column shows its new value; after a refused or failed one the shown settings are those before |
| Settings.CreatedRowShowsDefaults | src/hooks/useSettings.ts:77-137 | a user without a row sees the same column values before and after the fetch creates one, when the store fills it with the same column defaults |
| Onboarding.StepProgressClimbsToHundred | src/components/onboarding/OnboardingLoading.tsx:67-215 | seven steps whose progress values strictly increase and end at 100 |
| Onboarding.ConfigureUserExperience | src/components/onboarding/OnboardingLoading.tsx:225-238 | steps run in order with progress set after each; a step that throws stops there with the previous step's progress; otherwise the run completes at 100 |
| Onboarding.LevelFromKnowledge | src/components/onboarding/OnboardingLoading.tsx:103-110 | intermediate and advanced map to themselves, everything else to beginner |
| Onboarding.SectorStocks | src/components/onboarding/OnboardingLoading.tsx:149-155 | an unknown sector offers no stocks |
| Onboarding.StocksToAdd | src/components/onboarding/OnboardingLoading.tsx:156-161 | the duplicate-free union of the chosen sectors' stocks |
| Onboarding.WatchlistItems | src/components/onboarding/OnboardingLoading.tsx:163-184 | nothing without a watchlist or stocks; otherwise the first min(6, n) stocks, each with the watchlist id |
| Onboarding.ItemsDistinctAndOffered | src/components/onboarding/OnboardingLoading.tsx:156-175 | no symbol is upserted twice and each comes from a chosen sector |
| Onboarding.UnknownSectorAddsNothing | src/components/onboarding/OnboardingLoading.tsx:156-161 | choosing an unknown sector as well changes nothing |
| Onboarding.StepDescription | src/components/onboarding/OnboardingLoading.tsx:54-65 | the loading fallback iff the step is unknown; steps 1, 4 and 5 mention the level, the sector count (3 by default) and the goal label |
| Onboarding.MotivationLabel | src/components/onboarding/OnboardingLoading.tsx:458-467 | known motivations get their label; the fallback label iff the motivation is unknown |
| TreasureChest.HandleClaim | src/components/learning/TreasureChest.tsx:17-56 | claimed or signed out does nothing; otherwise the chest opens, the profile gets exactly 100 XP and 50 coins more when found, and the chest is claimed iff the attempt did not throw |
| TreasureChest.ClaimIsOneShot | src/components/learning/TreasureChest.tsx:17-18 | after a claim, a second one writes nothing and changes nothing |
| TreasureChest.RetryAfterThrowPays | src/components/learning/TreasureChest.tsx:52-55 | a claim that threw leaves the chest unclaimed, so a later one pays |
| TimerWidget.FromSeconds | src/components/learning/DuolingoTimerWidget.tsx:12-21 | a clock reading in range that shows exactly n seconds |
| TimerWidget.Tick | src/components/learning/DuolingoTimerWidget.tsx:12-21 | a tick keeps minutes and seconds in [0, 60) and adds exactly one second |
| TimerWidget.TickIsNextSecond | src/components/learning/DuolingoTimerWidget.tsx:12-21 | a tick shows the reading of the next second |
| TimerWidget.TicksFromStart | src/components/learning/DuolingoTimerWidget.tsx:7-21 | from the 00:05:00 start, n ticks show 300 + n seconds |
| TimerWidget.FormatNumber | src/components/learning/DuolingoTimerWidget.tsx:29 | at least two digits, the decimal itself when longer |
| TimerWidget.FormatNumberRoundTrip | src/components/learning/DuolingoTimerWidget.tsx:29 | the padded text reads back as the number |

## Left out

- Store reads and writes, toasts, console output, `setTimeout`/`setInterval`, animation and JSX. Store answers are inputs, store failures are flags or `Result` values, and writes are returned as records.
- Sequential store writes are not atomic in the source, and the model treats each decision on its own. Interleavings and races are not modelled.
- Clock values (`new Date()`, ISO date strings, month numbers, days left) are integer inputs. Time zones are not modelled.
- Floating point: money and percentages are exact reals. `Math.round` is rounding half up on integers, and `Math.floor`/`Math.ceil` are integer division.
- Tables defined in modules outside this model are parameters with stated requirements, never assumed contents:
  - the `LEVELS` table;
  - `LEAGUE_SIZE`, `PROMOTION_ZONE`, `DEMOTION_ZONE`;
  - `getNextLeague`/`getPreviousLeague` (given as the next and previous league);
  - `mockStocks`;
  - the path configuration.
- Lesson text (titles, explanations, question wording) is left out. The catalogue keeps each step's kind, which options are correct and the completion summary.
- League notification titles and messages are left out. A notice keeps its kind, rank, target league and stored type.
- `refreshLeague`, `fetchWatchlists`, `loadVideos`, `loadUsers`, `handleEdit` and `handleDelete` are left out. They only fetch, copy or delete through the store.
- `removeFromWatchlist` is left out. It deletes a row by id and refetches; it has no local decision.
- Onboarding step actions are left out: profile update, path creation and the fact ticker. The model keeps the progress sequence, `levelMap`, the sector selection, the upserted items and the texts.
- `addToWatchlist` ignores the insert's own store error (the result of the insert is never inspected). The model follows that, so a failed insert still reports success.
- Object keys like `toString` that JavaScript's `Record` lookups would find on the prototype are not modelled. Unknown keys simply fall back.
- UserManagement.FilterUsers: lower-cases ASCII letters only. Full Unicode case mapping is not modelled.
- Portfolio.ExecuteTrade: requires every stored holding to have positive shares and a buy to have non-negative shares. The source would otherwise divide by zero in the weighted average (NaN/Infinity). TradePreservesWf shows that trades keep this invariant.
- Portfolio.Summarize: states the percentage only for a positive cost basis. Its zero case is stated per holding in Portfolio.Value.
- StatsHeader.HeaderFor: requires a non-empty table starting at level 1 with strictly ascending thresholds and levels. The source reads `LEVELS[0]` and relies on the table's order.
- LearnPage.LocalId: requires a non-negative module and day, the only values the catalogue holds. Numbers are rendered as plain decimals.
- LearnPage.ShownReward: its own contract covers only the perfect-score XP. LearnPage.ShownRewardMatchesEngine states the whole reward.
- The code and the prose documentation disagree on how lesson codes relate to `order_index`. The code computes codes from a 0-based index while the catalogue is seeded 1-based. LearningPath.CreatePath follows the code; LearningPath.CreatePathIntended is the corrected path (see Findings).
- LearnPage.ShownRewardMatchesEngine: relates the two reward formulas on the same XP and coin values. The hook reads those values from the stored lesson row, and that the row agrees with the page's local catalogue is not stated.
- Portfolio.ExecuteTrade: a buy of 0 shares of a symbol not held adds a holding with 0 shares, as the source does. Such an account no longer meets the positive-shares requirement, so the model says nothing about trades that follow it, and Portfolio.TradePreservesWf requires a positive share count.
- LessonProgress.RecompletionRequestsNoReward: covers the call right after a rewarded completion, not every later call. The page sends `in_progress` for a failing retry (src/pages/Learn.tsx:105-112), which overwrites the done status, so a later passing completion is rewarded again even with the status selected; LessonProgress.FailedRetryReopensReward states this.
- PathDisplay.Node: the stored `lesson_number` is a decimal such as 1.1, which the model takes as its rendered text. Rendering a decimal as text is not modelled, and a stored 0, which JavaScript treats as missing, would render as "0" here rather than fall back to the position.

## Findings

| source | as written | input that shows it | evidently intended | confidence | as-written member | corrected member |
|---|---|---|---|---|---|---|
| src/hooks/useLessonProgress.ts:105-146 | the existence query selects only `id`, so `existing.status` is always undefined and `wasAlreadyCompleted` is always false | a lesson whose stored row is already `completed`, completed again with score 80 | rewards only for the first completion of a lesson | not executed | LessonProgress.AsWrittenRegrantsOnRecompletion | LessonProgress.RecompletionRequestsNoReward |
| src/lib/createUserLearningPath.ts:103-119 | codes are built from `order_index` as if it were 0-based (`floor(oi/10)+1`, `oi%10+1`), but the catalogue seeds `order_index` 1..10 | lessons with `order_index` 1 and 2: the first lesson gets code 1.2, the positional pass also maps 1.1 to it, and a path over 1.1, 1.2, 1.3 schedules it twice | code m.l names the lesson at position (m−1)·10 + (l−1), so a path schedules each lesson once | not executed | LearningPath.AsWrittenPathRepeatsFirstLesson | LearningPath.SeededPathIsComplete |
