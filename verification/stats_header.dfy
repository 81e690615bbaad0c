/**
 * The stats header (src/components/learning/DuolingoStatsHeader.tsx): the
 * level found in the level table for the profile's XP, the XP still needed
 * for the next level, and the progress bar towards it. The table is defined
 * in a module that is not part of this model, so it is a parameter.
 */
module StatsHeader {
  import opened Common
  import LevelTable

  /**
   * What the header needs of the level table: a first entry at level 1, and
   * both thresholds and levels strictly ascending.
   */
  predicate ValidTable(t: seq<LevelTable.LevelEntry>) {
    && |t| > 0
    && t[0].level == 1
    && forall i, j :: 0 <= i < j < |t| ==> t[i].xpRequired < t[j].xpRequired && t[i].level < t[j].level
  }

  /** `LEVELS.find(l => l.level === level)`. */
  function FindLevel(t: seq<LevelTable.LevelEntry>, level: int): (r: Option<nat>)
    ensures r.Some? ==> r.value < |t| && t[r.value].level == level
                        && forall j :: 0 <= j < r.value ==> t[j].level != level
    ensures r.None? ==> forall j :: 0 <= j < |t| ==> t[j].level != level
  {
    if |t| == 0 then None
    else if t[0].level == level then Some(0)
    else
      var r := FindLevel(t[1..], level);
      if r.Some? then Some(r.value + 1) else None
  }

  /** `LEVELS.find(l => l.level === level) || LEVELS[0]`: the entry of a level, or the first entry. */
  function LevelInfo(t: seq<LevelTable.LevelEntry>, level: int): (e: LevelTable.LevelEntry)
    requires |t| > 0
    ensures e in t
    ensures (exists i :: 0 <= i < |t| && t[i].level == level) ==> e.level == level
    ensures (forall i :: 0 <= i < |t| ==> t[i].level != level) ==> e == t[0]
  {
    var found := FindLevel(t, level);
    t[if found.Some? then found.value else 0]
  }

  /** The header's level figures; `bar` is the bar's width in percent, absent when the bar is hidden. */
  datatype Header = Header(
    currentLevel: int, levelInfo: LevelTable.LevelEntry, nextLevel: Option<LevelTable.LevelEntry>,
    xpNeeded: int, progress: real, bar: Option<real>)

  function Min(a: real, b: real): real {
    if a <= b then a else b
  }

  /** `covered / span * 100`: the share of a positive span, in percent. */
  function Percent(covered: int, span: int): (p: real)
    requires span > 0
    ensures p * span as real == covered as real * 100.0
  {
    covered as real / span as real * 100.0
  }

  /**
   * The header for a profile's XP (`xp || 0`): the table level, its entry (or
   * the first entry when it has none), the entry one level up, the XP still
   * needed for it (0 at the top level), and the share of the current level's
   * span already covered (100 at the top level), drawn as a bar clamped at
   * 100 that is shown only when there is a next level.
   */
  function HeaderFor(t: seq<LevelTable.LevelEntry>, xp: Option<int>): (h: Header)
    requires ValidTable(t)
    ensures h.currentLevel == LevelTable.LevelFor(t, OrInt(xp, 0))
    ensures h.levelInfo == LevelInfo(t, h.currentLevel)
    ensures h.nextLevel.None? <==> forall i :: 0 <= i < |t| ==> t[i].level != h.currentLevel + 1
    ensures h.nextLevel.None? ==> h.xpNeeded == 0 && h.progress == 100.0 && h.bar.None?
    ensures h.nextLevel.Some? ==>
              && h.nextLevel.value in t
              && h.nextLevel.value.level == h.currentLevel + 1
              && h.xpNeeded == h.nextLevel.value.xpRequired - OrInt(xp, 0)
              && h.xpNeeded > 0
              && h.levelInfo.xpRequired < h.nextLevel.value.xpRequired
              && h.progress == Percent(OrInt(xp, 0) - h.levelInfo.xpRequired,
                                       h.nextLevel.value.xpRequired - h.levelInfo.xpRequired)
              && h.bar == Some(Min(h.progress, 100.0))
  {
    var total := OrInt(xp, 0);
    var current := LevelTable.LevelFor(t, total);
    var info := LevelInfo(t, current);
    var next := FindLevel(t, current + 1);
    if next.None? then
      Header(current, info, None, 0, 100.0, None)
    else
      var n := t[next.value];
      CurrentEntryBelowNext(t, total, next.value);
      var progress := Percent(total - info.xpRequired, n.xpRequired - info.xpRequired);
      Header(current, info, Some(n), n.xpRequired - total, progress, Some(Min(progress, 100.0)))
  }

  /** With levels strictly ascending, looking up an entry's level finds that entry. */
  lemma FindLevelAt(t: seq<LevelTable.LevelEntry>, k: nat)
    requires ValidTable(t) && k < |t|
    ensures FindLevel(t, t[k].level) == Some(k)
  {
  }

  /**
   * The entry one level above the table level lies beyond the XP, and above
   * the entry of the current level (or the first entry when none is reached).
   */
  lemma CurrentEntryBelowNext(t: seq<LevelTable.LevelEntry>, xp: int, j: nat)
    requires ValidTable(t)
    requires j < |t| && t[j].level == LevelTable.LevelFor(t, xp) + 1
    ensures xp < t[j].xpRequired
    ensures LevelInfo(t, LevelTable.LevelFor(t, xp)).xpRequired < t[j].xpRequired
  {
    LevelTable.LevelForIsGreatestReached(t, xp);
    if LevelTable.NoneReached(t, xp) {
      FindLevelAt(t, 0);
    } else {
      var k :| LevelTable.IsLastReached(t, xp, k) && LevelTable.LevelFor(t, xp) == t[k].level;
      FindLevelAt(t, k);
    }
  }

  /** Once the first threshold is reached, the current level's entry is reached too. */
  lemma InfoReached(t: seq<LevelTable.LevelEntry>, xp: int)
    requires ValidTable(t) && t[0].xpRequired <= xp
    ensures LevelInfo(t, LevelTable.LevelFor(t, xp)).xpRequired <= xp
  {
    assert !LevelTable.NoneReached(t, xp) by {
      assert t[0].xpRequired <= xp;
    }
    var cur := LevelTable.LevelFor(t, xp);
    var k :| LevelTable.IsLastReached(t, xp, k) && cur == t[k].level;
    FindLevelAt(t, k);
    assert FindLevel(t, cur) == Some(k);
    assert LevelInfo(t, cur) == t[k];
  }

  /** Within a level reached by the XP, the bar is between 0 and 100 and below 100. */
  lemma ProgressWithinLevel(t: seq<LevelTable.LevelEntry>, xp: int)
    requires ValidTable(t) && t[0].xpRequired <= xp
    ensures var h := HeaderFor(t, Some(xp));
            h.nextLevel.Some? ==> 0.0 <= h.progress < 100.0 && h.bar == Some(h.progress)
  {
    var h := HeaderFor(t, Some(xp));
    assert OrInt(Some(xp), 0) == xp;
    assert h.levelInfo == LevelInfo(t, LevelTable.LevelFor(t, xp));
    InfoReached(t, xp);
    if h.nextLevel.Some? {
      var span := h.nextLevel.value.xpRequired - h.levelInfo.xpRequired;
      var covered := xp - h.levelInfo.xpRequired;
      assert h.progress == Percent(covered, span);
      PercentBelowHundred(covered, span);
    }
  }

  lemma MulSigns(p: real, s: real)
    ensures p < 0.0 && s > 0.0 ==> p * s < 0.0
    ensures p >= 100.0 && s > 0.0 ==> p * s >= 100.0 * s
  {
  }

  /** The share of a span covered in part is in `[0, 100)`. */
  lemma PercentBelowHundred(covered: int, span: int)
    requires 0 <= covered < span
    ensures 0.0 <= Percent(covered, span) < 100.0
  {
    MulSigns(Percent(covered, span), span as real);
  }

  /**
   * On a table numbered 1, 2, 3, … there is no next level exactly when the
   * XP reaches the last threshold, or the table has a single level.
   */
  lemma TopLevelIffLastReached(t: seq<LevelTable.LevelEntry>, xp: Option<int>)
    requires ValidTable(t)
    requires forall i :: 0 <= i < |t| ==> t[i].level == i + 1
    ensures HeaderFor(t, xp).nextLevel.None? <==> |t| == 1 || t[|t| - 1].xpRequired <= OrInt(xp, 0)
  {
    var total := OrInt(xp, 0);
    var h := HeaderFor(t, xp);
    if t[|t| - 1].xpRequired <= total {
      assert LevelTable.IsLastReached(t, total, |t| - 1);
      assert h.currentLevel == |t| by {
        var k :| LevelTable.IsLastReached(t, total, k) && h.currentLevel == t[k].level;
        assert k == |t| - 1;
      }
    } else if |t| > 1 {
      if LevelTable.NoneReached(t, total) {
        assert t[1].level == h.currentLevel + 1;
      } else {
        var k :| LevelTable.IsLastReached(t, total, k) && h.currentLevel == t[k].level;
        assert k + 1 < |t|;
        assert t[k + 1].level == h.currentLevel + 1;
      }
    }
  }
}
