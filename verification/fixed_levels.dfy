/**
 * The two fixed-size level schemes shown outside the lesson pages: levels of
 * 100 XP on the dashboard (src/pages/Dashboard.tsx) and of 500 XP on the
 * profile page (src/pages/Profile.tsx). Both compute the level as
 * `Math.floor(xp / size) + 1` and the progress as JavaScript `xp % size`,
 * and fall back to level 1 with no progress when no profile is loaded.
 */
module FixedLevels {
  import opened Common

  /** A level and the XP gained within it. */
  datatype Standing = Standing(level: int, progress: int)

  /** The standing for levels of `size` XP; `xp` is absent when no profile is loaded. */
  function StandingFor(xp: Option<int>, size: int): (s: Standing)
    requires size > 0
    ensures xp.None? ==> s == Standing(1, 0)
    ensures xp.Some? && xp.value >= 0 ==>
              && s.level >= 1
              && 0 <= s.progress < size
              && xp.value == (s.level - 1) * size + s.progress
  {
    if xp.None? then Standing(1, 0)
    else Standing(xp.value / size + 1, JsRem(xp.value, size))
  }

  /**
   * For a negative balance the two halves disagree: `Math.floor` rounds the
   * level down while the remainder keeps the sign of the XP, so the standing
   * no longer adds back up to the XP.
   */
  lemma NegativeXpDoesNotAddUp()
    ensures StandingFor(Some(-50), 100) == Standing(0, -50)
    ensures var s := StandingFor(Some(-50), 100);
            (s.level - 1) * 100 + s.progress != -50
  {
  }

  /** Levels never go down as XP grows. */
  lemma LevelMonotone(x: int, y: int, size: int)
    requires size > 0 && 0 <= x <= y
    ensures StandingFor(Some(x), size).level <= StandingFor(Some(y), size).level
  {
    var a, b := StandingFor(Some(x), size), StandingFor(Some(y), size);
    MulStep(b.level - 1, a.level - 1, size);
  }

  lemma MulStep(m: int, n: int, size: int)
    ensures m < n && size > 0 ==> m * size + size <= n * size
  {
    if m < n && size > 0 {
      var d := n - m - 1;
      assert d >= 0;
      assert d * size >= 0;
      assert n * size == m * size + size + d * size;
    }
  }

  // ---------------------------------------------------------------------------
  // Dashboard: levels of 100 XP

  const DashboardLevelSize: int := 100

  /** The dashboard's level card: level, progress, bar width in percent, the star, and the XP to the next level. */
  datatype LevelCard = LevelCard(level: int, progress: int, barWidth: int, star: bool, toNext: int)

  /** The bar is never narrower than 5%; the star shows once past 10 XP; the rest of the level is still to go. */
  function DashboardCard(xp: Option<int>): (c: LevelCard)
    ensures c.level == StandingFor(xp, DashboardLevelSize).level
    ensures c.progress == StandingFor(xp, DashboardLevelSize).progress
    ensures c.barWidth >= 5 && c.barWidth >= c.progress && (c.barWidth == 5 || c.barWidth == c.progress)
    ensures c.star <==> c.progress > 10
    ensures c.progress + c.toNext == DashboardLevelSize
    ensures xp.None? || xp.value >= 0 ==> 0 < c.toNext <= DashboardLevelSize && c.barWidth <= 99
  {
    var s := StandingFor(xp, DashboardLevelSize);
    LevelCard(s.level, s.progress, if s.progress >= 5 then s.progress else 5, s.progress > 10, 100 - s.progress)
  }

  // ---------------------------------------------------------------------------
  // Profile: levels of 500 XP

  const ProfileLevelSize: int := 500

  /** The profile's level: the level, the progress in it and the fixed `xpToNextLevel` of 500. */
  datatype ProfileLevel = ProfileLevel(level: int, progress: int, xpToNextLevel: int)

  function ProfileLevelFor(xp: Option<int>): (p: ProfileLevel)
    ensures p.level == StandingFor(xp, ProfileLevelSize).level
    ensures p.progress == StandingFor(xp, ProfileLevelSize).progress
    ensures p.xpToNextLevel == ProfileLevelSize
    ensures xp.None? || xp.value >= 0 ==> p.progress < p.xpToNextLevel
  {
    var s := StandingFor(xp, ProfileLevelSize);
    ProfileLevel(s.level, s.progress, 500)
  }

  /** Five dashboard levels make one profile level. */
  lemma FiveDashboardLevelsPerProfileLevel(xp: int)
    requires xp >= 0
    ensures ProfileLevelFor(Some(xp)).level - 1 == (DashboardCard(Some(xp)).level - 1) / 5
  {
  }
}
