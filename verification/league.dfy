/**
 * The monthly league (src/hooks/useLeague.ts): the defaults applied to a
 * stored league row, joining at the bottom league, adding monthly XP, ranking
 * the members of a league, and the end-of-month classification of a final
 * rank into notifications. The league ladder and its constants (league size,
 * promotion and demotion zones) are not part of this model: they are passed
 * in as parameters.
 */
module League {
  import opened Common

  /** `LEAGUE_SIZE`, `PROMOTION_ZONE` and `DEMOTION_ZONE`. */
  datatype Zones = Zones(leagueSize: int, promotionZone: int, demotionZone: int)

  const Bronze: string := "Bronze"

  /** A `user_leagues` row as stored: every counter may be null. */
  datatype StoredRow = StoredRow(
    id: string, userId: string, currentLeague: string, groupId: Option<string>,
    leagueRank: Option<int>, weekNumber: int, weeklyXp: Option<int>,
    highestLeague: Option<string>, promotions: Option<int>, demotions: Option<int>,
    weeksParticipated: Option<int>, top3Finishes: Option<int>, firstPlaceFinishes: Option<int>)

  /** The league state the page works with. */
  datatype UserLeague = UserLeague(
    id: string, userId: string, currentLeague: string, groupId: Option<string>,
    leagueRank: int, monthNumber: int, monthlyXp: int, highestLeague: string,
    promotions: int, demotions: int, monthsParticipated: int, top3Finishes: int, firstPlaceFinishes: int)

  /** `fetchUserLeague`: a stored row read with the `||` defaults; the weekly columns hold the monthly values. */
  function ReadRow(z: Zones, row: StoredRow): (u: UserLeague)
    ensures u.id == row.id && u.userId == row.userId && u.currentLeague == row.currentLeague
    ensures u.monthNumber == row.weekNumber
    ensures row.leagueRank.None? ==> u.leagueRank == z.leagueSize
    ensures row.weeklyXp.None? ==> u.monthlyXp == 0
    ensures row.highestLeague.None? ==> u.highestLeague == Bronze
    ensures row.promotions.None? ==> u.promotions == 0
    ensures row.demotions.None? ==> u.demotions == 0
    ensures row.weeksParticipated.None? ==> u.monthsParticipated == 0
    ensures row.top3Finishes.None? ==> u.top3Finishes == 0
    ensures row.firstPlaceFinishes.None? ==> u.firstPlaceFinishes == 0
  {
    UserLeague(
      row.id, row.userId, row.currentLeague, row.groupId,
      OrInt(row.leagueRank, z.leagueSize), row.weekNumber, OrInt(row.weeklyXp, 0),
      OrStr(row.highestLeague, Bronze), OrInt(row.promotions, 0), OrInt(row.demotions, 0),
      OrInt(row.weeksParticipated, 0), OrInt(row.top3Finishes, 0), OrInt(row.firstPlaceFinishes, 0))
  }

  /** Every stored counter that is set and non-zero is read back unchanged. */
  lemma ReadRowKeepsStoredValues(z: Zones, row: StoredRow)
    requires row.leagueRank.Some? && row.leagueRank.value != 0
    requires row.weeklyXp.Some? && row.weeklyXp.value != 0
    ensures ReadRow(z, row).leagueRank == row.leagueRank.value
    ensures ReadRow(z, row).monthlyXp == row.weeklyXp.value
  {
  }

  /** The row `joinLeague` inserts. */
  datatype JoinInsert = JoinInsert(userId: string, currentLeague: string, weekNumber: int, weeklyXp: int, leagueRank: int)

  /**
   * `joinLeague`: nothing without a user; otherwise a Bronze row with no XP at
   * the bottom rank is inserted, and on success the state is the inserted row
   * (as the store echoes it back, with its new id and group) with every counter
   * at zero. A failed insert returns early, so nothing new is set.
   */
  function Join(z: Zones, user: Option<string>, monthNumber: int, inserted: Result<(string, Option<string>)>)
    : (r: (Option<JoinInsert>, Option<UserLeague>))
    ensures user.None? ==> r.0.None? && r.1.None?
    ensures user.Some? ==> r.0 == Some(JoinInsert(user.value, Bronze, monthNumber, 0, z.leagueSize))
    ensures r.1.Some? <==> user.Some? && inserted.Ok?
    ensures r.1.Some? ==>
              && r.1.value.currentLeague == Bronze && r.1.value.highestLeague == Bronze
              && r.1.value.monthlyXp == 0 && r.1.value.leagueRank == z.leagueSize
              && r.1.value.monthNumber == monthNumber && r.1.value.userId == user.value
              && r.1.value.promotions == r.1.value.demotions == r.1.value.monthsParticipated == 0
              && r.1.value.top3Finishes == r.1.value.firstPlaceFinishes == 0
  {
    if user.None? then (None, None)
    else
      var ins := JoinInsert(user.value, Bronze, monthNumber, 0, z.leagueSize);
      if inserted.Failed? then (Some(ins), None)
      else
        var (id, group) := inserted.value;
        (Some(ins), Some(UserLeague(
          id, ins.userId, ins.currentLeague, group, OrInt(Some(ins.leagueRank), z.leagueSize),
          ins.weekNumber, OrInt(Some(ins.weeklyXp), 0), Bronze, 0, 0, 0, 0, 0)))
  }

  /** A joined state reads back the same as the row it inserted would, once stored. */
  lemma JoinAgreesWithRead(z: Zones, user: string, monthNumber: int, id: string, group: Option<string>)
    ensures var r := Join(z, Some(user), monthNumber, Ok((id, group)));
            r.1 == Some(ReadRow(z, StoredRow(
              id, user, Bronze, group, Some(z.leagueSize), monthNumber, Some(0),
              None, None, None, None, None, None)))
  {
  }

  /**
   * `updateMonthlyXP`: with a user and a league state, the new monthly total
   * `old + gained` is written; the state takes it only when the write
   * succeeds, and nothing else changes.
   */
  function UpdateMonthlyXp(signedIn: bool, state: Option<UserLeague>, gained: int, writeFailed: bool)
    : (r: (Option<int>, Option<UserLeague>))
    ensures r.0.Some? <==> signedIn && state.Some?
    ensures r.0.Some? ==> r.0.value == state.value.monthlyXp + gained
    ensures r.1.None? <==> state.None?
    ensures (!signedIn || writeFailed) ==> r.1 == state
    ensures signedIn && state.Some? && !writeFailed ==>
              r.1 == Some(state.value.(monthlyXp := state.value.monthlyXp + gained))
  {
    if !signedIn || state.None? then (None, state)
    else
      var total := state.value.monthlyXp + gained;
      if writeFailed then (Some(total), state)
      else (Some(total), Some(state.value.(monthlyXp := total)))
  }

  /** Two successful updates add up: the monthly total is the sum of the gains. */
  lemma UpdatesAccumulate(state: UserLeague, g1: int, g2: int)
    ensures var s1 := UpdateMonthlyXp(true, Some(state), g1, false).1;
            var s2 := UpdateMonthlyXp(true, s1, g2, false).1;
            s2 == Some(state.(monthlyXp := state.monthlyXp + (g1 + g2)))
  {
  }

  // ---------------------------------------------------------------------------
  // Members

  /** A row of the members query, as the store returns it (highest weekly XP first, at most `LEAGUE_SIZE`). */
  datatype MemberRow = MemberRow(id: string, userId: string, weeklyXp: Option<int>)

  datatype MemberProfile = MemberProfile(userId: string, username: Option<string>, avatarUrl: Option<string>, currentLevel: Option<int>)

  datatype Member = Member(id: string, userId: string, username: string, avatarUrl: Option<string>, currentLevel: int, monthlyXp: int, rank: int)

  function FindProfile(profiles: seq<MemberProfile>, userId: string): (r: Option<MemberProfile>)
    ensures r.Some? ==> r.value in profiles && r.value.userId == userId
    ensures r.None? ==> forall p :: p in profiles ==> p.userId != userId
  {
    if |profiles| == 0 then None
    else if profiles[0].userId == userId then Some(profiles[0])
    else FindProfile(profiles[1..], userId)
  }

  function MemberOf(row: MemberRow, profile: Option<MemberProfile>, rank: int): Member {
    Member(
      row.id, row.userId,
      OrStr(if profile.Some? then profile.value.username else None, "Trader"),
      if profile.Some? then profile.value.avatarUrl else None,
      OrInt(if profile.Some? then profile.value.currentLevel else None, 1),
      OrInt(row.weeklyXp, 0), rank)
  }

  /**
   * `fetchLeagueMembers`: no rows gives no members; otherwise each row in
   * query order becomes a member ranked by its position, with the profile's
   * name (default `Trader`) and level (default 1).
   */
  function Members(fetched: Option<seq<MemberRow>>, profiles: seq<MemberProfile>): (r: seq<Member>)
    ensures fetched.None? ==> r == []
    ensures fetched.Some? ==> |r| == |fetched.value|
    ensures fetched.Some? ==> forall i :: 0 <= i < |r| ==>
              && r[i].rank == i + 1
              && r[i].userId == fetched.value[i].userId
              && r[i].monthlyXp == OrInt(fetched.value[i].weeklyXp, 0)
              && r[i].id == fetched.value[i].id
              && (FindProfile(profiles, r[i].userId).None? ==>
                    r[i].username == "Trader" && r[i].currentLevel == 1 && r[i].avatarUrl.None?)
              && (FindProfile(profiles, r[i].userId).Some? ==>
                    var p := FindProfile(profiles, r[i].userId).value;
                    && r[i].username == OrStr(p.username, "Trader")
                    && r[i].currentLevel == OrInt(p.currentLevel, 1)
                    && r[i].avatarUrl == p.avatarUrl)
  {
    if fetched.None? then []
    else
      var rows := fetched.value;
      seq(|rows|, i requires 0 <= i < |rows| => MemberOf(rows[i], FindProfile(profiles, rows[i].userId), i + 1))
  }

  /** The query returns the rows by descending monthly XP. */
  predicate ByXpDescending(rows: seq<MemberRow>) {
    forall i, j :: 0 <= i < j < |rows| ==> OrInt(rows[i].weeklyXp, 0) >= OrInt(rows[j].weeklyXp, 0)
  }

  /**
   * With the rows in query order, a better rank never has less XP, and the
   * ranks stay within the league size the query is limited to.
   */
  lemma RanksFollowXp(fetched: seq<MemberRow>, profiles: seq<MemberProfile>, leagueSize: int)
    requires ByXpDescending(fetched) && |fetched| <= leagueSize
    ensures var m := Members(Some(fetched), profiles);
            && (forall i, j :: 0 <= i < |m| && 0 <= j < |m| && m[i].rank < m[j].rank ==> m[i].monthlyXp >= m[j].monthlyXp)
            && (forall i :: 0 <= i < |m| ==> 1 <= m[i].rank <= leagueSize)
  {
  }

  // ---------------------------------------------------------------------------
  // End-of-month results

  datatype Kind = Promotion | Demotion | Top1 | Top3 | Top10 | MonthlyResult

  /** A notification the results create: its kind, the final rank and the league moved to, if any. */
  datatype Notice = Notice(kind: Kind, rank: int, league: string, newLeague: Option<string>)

  /** The kinds that report the final result (every kind but a promotion). */
  predicate IsResult(n: Notice) {
    n.kind != Promotion
  }

  /** The notification type each kind is stored with. */
  function NoticeType(k: Kind): (t: string)
    ensures k == Promotion || k == Top3 || k == Top10 <==> t == "success"
    ensures k == Demotion <==> t == "warning"
    ensures k == Top1 <==> t == "achievement"
    ensures k == MonthlyResult <==> t == "info"
  {
    match k
    case Promotion => "success"
    case Demotion => "warning"
    case Top1 => "achievement"
    case Top3 => "success"
    case Top10 => "success"
    case MonthlyResult => "info"
  }

  /** The final rank: the stored rank, or the bottom `LEAGUE_SIZE` when it is missing (0). */
  function FinalRank(z: Zones, u: UserLeague): (rank: int)
    ensures u.leagueRank != 0 ==> rank == u.leagueRank
    ensures u.leagueRank == 0 ==> rank == z.leagueSize
  {
    OrInt(Some(u.leagueRank), z.leagueSize)
  }

  /**
   * `processMonthlyResults`: the final rank (a missing rank counts as the
   * bottom `LEAGUE_SIZE`) is classified as first place, podium, promotion
   * zone, demotion zone or neither; the leagues above and below are those of
   * the ladder, if any.
   */
  function MonthlyResults(z: Zones, signedIn: bool, state: Option<UserLeague>, next: Option<string>, prev: Option<string>)
    : (r: seq<Notice>)
    ensures !signedIn || state.None? ==> r == []
    ensures signedIn && state.Some? ==>
              var rank := FinalRank(z, state.value);
              && |r| >= 1
              && r[0].rank == rank && r[0].league == state.value.currentLeague
              && (r[0].kind == Top1 <==> rank == 1)
              && (r[0].kind == Top3 <==> rank != 1 && rank <= 3)
              && (r[0].kind == Top10 <==> 3 < rank <= z.promotionZone)
              && (r[0].kind == Demotion <==>
                    rank > 3 && rank > z.promotionZone && rank > z.leagueSize - z.demotionZone && prev.Some?)
              && (r[0].kind == MonthlyResult <==>
                    rank > 3 && rank > z.promotionZone && !(rank > z.leagueSize - z.demotionZone && prev.Some?))
              && r[0].kind != Promotion
              && r[0].newLeague == (if r[0].kind == Demotion then prev else None)
  {
    if !signedIn || state.None? then []
    else
      var rank := OrInt(Some(state.value.leagueRank), z.leagueSize);
      var league := state.value.currentLeague;
      var promotion := if next.Some? then [Notice(Promotion, rank, league, next)] else [];
      if rank == 1 then
        [Notice(Top1, rank, league, None)] + promotion
      else if rank <= 3 then
        [Notice(Top3, rank, league, None)] + (if rank <= z.promotionZone then promotion else [])
      else if rank <= z.promotionZone then
        [Notice(Top10, rank, league, None)] + promotion
      else if rank > z.leagueSize - z.demotionZone && prev.Some? then
        [Notice(Demotion, rank, league, prev)]
      else
        [Notice(MonthlyResult, rank, league, None)]
  }

  predicate HasKind(r: seq<Notice>, k: Kind) {
    exists i :: 0 <= i < |r| && r[i].kind == k
  }

  /**
   * Every classification reports exactly one result, first, possibly
   * followed by a promotion; a promotion and a demotion never come together.
   */
  lemma ExactlyOneResult(z: Zones, u: UserLeague, next: Option<string>, prev: Option<string>)
    ensures var r := MonthlyResults(z, true, Some(u), next, prev);
            && 1 <= |r| <= 2
            && IsResult(r[0])
            && (|r| == 2 ==> r[1].kind == Promotion && r[1].newLeague == next)
            && !(HasKind(r, Promotion) && HasKind(r, Demotion))
  {
  }

  /** A promotion is announced exactly when a higher league exists and the rank is first or inside the promotion zone. */
  lemma PromotedIff(z: Zones, u: UserLeague, next: Option<string>, prev: Option<string>)
    ensures HasKind(MonthlyResults(z, true, Some(u), next, prev), Promotion)
        <==> next.Some? && (FinalRank(z, u) == 1 || FinalRank(z, u) <= z.promotionZone)
  {
    var r := MonthlyResults(z, true, Some(u), next, prev);
    if next.Some? && (FinalRank(z, u) == 1 || FinalRank(z, u) <= z.promotionZone) {
      assert r[1].kind == Promotion;
    }
    if HasKind(r, Promotion) {
      var i :| 0 <= i < |r| && r[i].kind == Promotion;
    }
  }

  /**
   * A demotion is announced exactly when a lower league exists and the rank
   * is outside the podium, outside the promotion zone, and in the bottom
   * `DEMOTION_ZONE` places.
   */
  lemma DemotedIff(z: Zones, u: UserLeague, next: Option<string>, prev: Option<string>)
    ensures HasKind(MonthlyResults(z, true, Some(u), next, prev), Demotion)
        <==> (prev.Some? && FinalRank(z, u) > 3 && FinalRank(z, u) > z.promotionZone
              && FinalRank(z, u) > z.leagueSize - z.demotionZone)
  {
    var r := MonthlyResults(z, true, Some(u), next, prev);
    if prev.Some? && FinalRank(z, u) > 3 && FinalRank(z, u) > z.promotionZone
       && FinalRank(z, u) > z.leagueSize - z.demotionZone {
      assert r[0].kind == Demotion;
    }
    if HasKind(r, Demotion) {
      var i :| 0 <= i < |r| && r[i].kind == Demotion;
    }
  }

  /** A better final rank never loses a promotion a worse rank would get. */
  lemma PromotionIsMonotone(z: Zones, u: UserLeague, v: UserLeague, next: Option<string>, prev: Option<string>)
    requires 1 <= FinalRank(z, u) <= FinalRank(z, v)
    requires HasKind(MonthlyResults(z, true, Some(v), next, prev), Promotion)
    ensures HasKind(MonthlyResults(z, true, Some(u), next, prev), Promotion)
  {
    PromotedIff(z, u, next, prev);
    PromotedIff(z, v, next, prev);
  }

  /** The result bands from best to worst: first place, podium, promotion zone, neither, demotion. */
  function Band(k: Kind): nat {
    match k
    case Top1 => 0
    case Top3 => 1
    case Top10 => 2
    case MonthlyResult => 3
    case Demotion => 4
    case Promotion => 0
  }

  /** A better final rank never gets a worse result than a worse rank in the same league. */
  lemma ResultIsMonotone(z: Zones, u: UserLeague, v: UserLeague, next: Option<string>, prev: Option<string>)
    requires 1 <= FinalRank(z, u) <= FinalRank(z, v)
    ensures Band(MonthlyResults(z, true, Some(u), next, prev)[0].kind)
         <= Band(MonthlyResults(z, true, Some(v), next, prev)[0].kind)
  {
  }
}
