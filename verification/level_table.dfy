/**
 * The level table lookup shared by the lesson reward engine, the learn page
 * and the stats header: `LEVELS.reduce((level, lvl) => xp >= lvl.xpRequired ?
 * lvl.level : level, 1)`. The table itself is defined in a module that is not
 * part of this model, so it is a parameter everywhere.
 */
module LevelTable {

  datatype LevelEntry = LevelEntry(level: int, xpRequired: int)

  /** The table is ascending by threshold and strictly ascending by level. */
  predicate Sorted(t: seq<LevelEntry>) {
    forall i, j :: 0 <= i < j < |t| ==> t[i].xpRequired <= t[j].xpRequired && t[i].level < t[j].level
  }

  /** Entry `k` is the last one, in table order, whose threshold `xp` reaches. */
  predicate IsLastReached(t: seq<LevelEntry>, xp: int, k: int) {
    && 0 <= k < |t|
    && t[k].xpRequired <= xp
    && forall j :: k < j < |t| ==> xp < t[j].xpRequired
  }

  /** `xp` reaches no threshold of the table. */
  predicate NoneReached(t: seq<LevelEntry>, xp: int) {
    forall j :: 0 <= j < |t| ==> xp < t[j].xpRequired
  }

  /**
   * The level of the last entry whose threshold is reached, or 1 when none is:
   * the left fold of the source, written as recursion on the table's prefix.
   */
  function LevelFor(t: seq<LevelEntry>, xp: int): (r: int)
    ensures NoneReached(t, xp) ==> r == 1
    ensures !NoneReached(t, xp) ==> exists k :: IsLastReached(t, xp, k) && r == t[k].level
  {
    if |t| == 0 then 1
    else if t[|t| - 1].xpRequired <= xp then t[|t| - 1].level
    else
      var r := LevelFor(t[..|t| - 1], xp);
      assert !NoneReached(t, xp) ==> !NoneReached(t[..|t| - 1], xp);
      if !NoneReached(t[..|t| - 1], xp) then
        var k :| IsLastReached(t[..|t| - 1], xp, k) && r == t[..|t| - 1][k].level;
        assert IsLastReached(t, xp, k);
        r
      else r
  }

  /** On a sorted table the level found is the greatest level whose threshold is reached. */
  lemma LevelForIsGreatestReached(t: seq<LevelEntry>, xp: int)
    requires Sorted(t)
    ensures forall j :: 0 <= j < |t| && t[j].xpRequired <= xp ==> t[j].level <= LevelFor(t, xp)
  {
    var r := LevelFor(t, xp);
    if !NoneReached(t, xp) {
      var k :| IsLastReached(t, xp, k) && r == t[k].level;
      forall j | 0 <= j < |t| && t[j].xpRequired <= xp
        ensures t[j].level <= r
      {
        assert j <= k;
        if j < k {
          assert t[j].level < t[k].level;
        }
      }
    }
  }

  /**
   * On a sorted table whose first level is at least 1, more XP never gives a
   * lower level.
   */
  lemma LevelForMonotone(t: seq<LevelEntry>, xp1: int, xp2: int)
    requires Sorted(t)
    requires |t| > 0 ==> t[0].level >= 1
    requires xp1 <= xp2
    ensures LevelFor(t, xp1) <= LevelFor(t, xp2)
  {
    var r1, r2 := LevelFor(t, xp1), LevelFor(t, xp2);
    LevelForIsGreatestReached(t, xp2);
    if !NoneReached(t, xp1) {
      var k :| IsLastReached(t, xp1, k) && r1 == t[k].level;
      assert t[k].xpRequired <= xp2;
    } else if !NoneReached(t, xp2) {
      var k :| IsLastReached(t, xp2, k) && r2 == t[k].level;
      if k > 0 {
        assert t[0].level < t[k].level;
      }
    }
  }
}
