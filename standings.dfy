/**
 * The pool page and the dashboard (the closures of routes/web.php). The
 * statistics service enters as a `StatsSource`: what it answers for a player
 * (or team) and a window of 'Y-m-d' dates; its caching is modelled in NHLApi.
 */
module PoolPage {
  import opened Wrappers
  import opened Accounts
  import opened RuleSettings
  import opened Pools
  import Draft
  import NHLApi
  import Sorting

  const Goalie: string := "G"

  /** The goalie statistics the page asks for; the service's definition is not part of this model. */
  datatype GoalieStats = GoalieStats(wins: Option<int>, shutouts: Option<int>, gamesPlayed: Option<int>)

  datatype StatsSource = StatsSource(
    skater: (int, string, string) -> NHLApi.PlayerStats,
    goalie: (int, string, string) -> GoalieStats,
    teamGames: (string, string, string) -> nat)

  /** A window of dates as the service receives them. */
  datatype Window = Window(from: string, to: string)

  /** The scoring window: the day after the draft day through the end date. */
  function ScoringWindow(startDate: Day, endDate: Day, formatDay: Day -> string): (w: Window)
    ensures w.from == formatDay(startDate + 1) && w.to == formatDay(endDate)
  {
    Window(formatDay(WindowFirstDay(startDate)), formatDay(endDate))
  }

  // ---------------------------------------------------------------------------
  // The viewer's phase
  // ---------------------------------------------------------------------------

  /**
   * The viewer's status as the page computes it: active once the draft day
   * is past. The page also tests `selection_completed_at` on the viewer's
   * pivot, but `Pool::users()` declares no `withPivot`, so the loaded pivot
   * holds only the keys and time stamps and the test is always false:
   * completing selection has no effect on the page.
   */
  function ViewerStatus(startDate: Day, today: Day): (s: Status)
    ensures s != Finished
    ensures s == Active <==> today > startDate
  {
    if today > startDate then Active else Selection
  }

  /** With ordered dates, the viewer is in selection exactly when the pool is. */
  lemma ViewerFollowsPool(startDate: Day, endDate: Day, today: Day)
    requires startDate <= endDate
    ensures ViewerStatus(startDate, today) == Selection <==> CalculateStatus(startDate, endDate, today) == Selection
  {
  }

  /** Whether the viewer's first pivot row (the one `first()` loads) holds a completion stamp. */
  predicate SelectionCompleted(members: seq<Membership>, viewerId: int) {
    var r := FirstRowOf(members, viewerId);
    r.Some? && members[r.value].completedAt.Some?
  }

  /**
   * The status the page evidently intends, and computes once the relation
   * loads the column (`withPivot('selection_completed_at')`): active once
   * the draft day is past or the viewer has completed selection.
   */
  function IntendedViewerStatus(startDate: Day, members: seq<Membership>, viewerId: int, today: Day): (s: Status)
    ensures s != Finished
    ensures s == Active <==> today > startDate || SelectionCompleted(members, viewerId)
  {
    if today > startDate || SelectionCompleted(members, viewerId) then Active else Selection
  }

  /** Completing selection makes a member active under the intended status, even on the draft day. */
  lemma CompletionActivatesViewer(startDate: Day, members: seq<Membership>, viewerId: int, today: Day, now: int)
    requires viewerId in MemberIds(members)
    ensures IntendedViewerStatus(startDate, Completed(members, viewerId, now), viewerId, today) == Active
  {
    CompletedFirstRow(members, viewerId, now, viewerId);
  }

  /** The two statuses differ exactly for a viewer who has completed selection, up to the draft day. */
  lemma IntendedDiffersOnlyForCompleted(startDate: Day, members: seq<Membership>, viewerId: int, today: Day)
    ensures ViewerStatus(startDate, today) != IntendedViewerStatus(startDate, members, viewerId, today)
            <==> today <= startDate && SelectionCompleted(members, viewerId)
  {
  }

  /** `is_admin` on the page: a super admin or the pool's owner. */
  predicate IsPoolAdmin(viewer: User, ownerId: int) {
    viewer.isSuperAdmin || ownerId == viewer.id
  }

  // ---------------------------------------------------------------------------
  // Points of one pick
  // ---------------------------------------------------------------------------

  /** A rule column or a statistic read with `?? 0`. */
  function Col(v: Option<int>): int { v.GetOr(0) }

  /**
   * The page's point formula, chosen by position: a goalie scores wins and
   * shutouts, anyone else goals and assists, weighted by the four legacy
   * columns of the rule setting.
   */
  function PickPoints(rs: RuleSetting, position: string, s: NHLApi.PlayerStats, g: GoalieStats): int {
    if position == Goalie then Col(g.wins) * Col(rs.pointsPerVictory) + Col(g.shutouts) * Col(rs.pointsPerShutout)
    else s.goals * Col(rs.pointsPerGoal) + s.assists * Col(rs.pointsPerAssist)
  }

  /** A goalie's points do not depend on its skater statistics, nor a skater's on goalie statistics. */
  lemma FormulaFollowsPosition(rs: RuleSetting, position: string, s1: NHLApi.PlayerStats, s2: NHLApi.PlayerStats,
                               g1: GoalieStats, g2: GoalieStats)
    ensures position == Goalie ==> PickPoints(rs, position, s1, g1) == PickPoints(rs, position, s2, g1)
    ensures position != Goalie ==> PickPoints(rs, position, s1, g1) == PickPoints(rs, position, s1, g2)
  {
  }

  /**
   * Only the four legacy columns weigh points: the defeat and overtime
   * columns, the structured rules and the upstream `points` play no part.
   */
  lemma OnlyLegacyColumnsCount(rs: RuleSetting, position: string, s: NHLApi.PlayerStats, g: GoalieStats,
                               defeat: Option<int>, overtime: Option<int>, rules: RulesBlob, upstreamPoints: int)
    ensures PickPoints(rs.(pointsPerDefeat := defeat, pointsPerOvertime := overtime, rules := rules),
                       position, s.(points := upstreamPoints), g)
            == PickPoints(rs, position, s, g)
  {
  }

  /**
   * Each statistic is worth its own legacy column: one more goal or assist
   * adds that column's points for a skater, one more win or shutout for a
   * goalie (a missing goalie statistic counts as 0).
   */
  lemma EachStatEarnsItsColumn(rs: RuleSetting, position: string, s: NHLApi.PlayerStats, g: GoalieStats)
    ensures position != Goalie ==>
      PickPoints(rs, position, s.(goals := s.goals + 1), g) == PickPoints(rs, position, s, g) + Col(rs.pointsPerGoal)
    ensures position != Goalie ==>
      PickPoints(rs, position, s.(assists := s.assists + 1), g) == PickPoints(rs, position, s, g) + Col(rs.pointsPerAssist)
    ensures position == Goalie ==>
      PickPoints(rs, position, s, g.(wins := Some(Col(g.wins) + 1))) == PickPoints(rs, position, s, g) + Col(rs.pointsPerVictory)
    ensures position == Goalie ==>
      PickPoints(rs, position, s, g.(shutouts := Some(Col(g.shutouts) + 1))) == PickPoints(rs, position, s, g) + Col(rs.pointsPerShutout)
  {
  }

  /** Proof step of SkaterPointsSumOverGames: a weight distributes over a sum of counts. */
  lemma WeightedSum(x: int, y: int, w: int)
    ensures (x + y) * w == x * w + y * w
  {
  }

  /** A skater's points over a window are the sum of its points over the window's games. */
  lemma SkaterPointsSumOverGames(rs: RuleSetting, position: string, a: seq<NHLApi.GameRecord>, b: seq<NHLApi.GameRecord>, g: GoalieStats)
    requires position != Goalie
    ensures PickPoints(rs, position, NHLApi.WindowTotals(a + b), g)
            == PickPoints(rs, position, NHLApi.WindowTotals(a), g) + PickPoints(rs, position, NHLApi.WindowTotals(b), g)
  {
    var ta, tb, tab := NHLApi.WindowTotals(a), NHLApi.WindowTotals(b), NHLApi.WindowTotals(a + b);
    NHLApi.WindowTotalsAppend(a, b);
    assert tab.goals == ta.goals + tb.goals && tab.assists == ta.assists + tb.assists;
    var pg, pa := Col(rs.pointsPerGoal), Col(rs.pointsPerAssist);
    WeightedSum(ta.goals, tb.goals, pg);
    WeightedSum(ta.assists, tb.assists, pa);
    assert PickPoints(rs, position, tab, g) == tab.goals * pg + tab.assists * pa;
    assert PickPoints(rs, position, ta, g) == ta.goals * pg + ta.assists * pa;
    assert PickPoints(rs, position, tb, g) == tb.goals * pg + tb.assists * pa;
  }

  /** With non-negative weights and statistics, no pick scores below zero. */
  lemma PointsNonNegative(rs: RuleSetting, position: string, s: NHLApi.PlayerStats, g: GoalieStats)
    requires Col(rs.pointsPerGoal) >= 0 && Col(rs.pointsPerAssist) >= 0
    requires Col(rs.pointsPerVictory) >= 0 && Col(rs.pointsPerShutout) >= 0
    requires s.goals >= 0 && s.assists >= 0 && Col(g.wins) >= 0 && Col(g.shutouts) >= 0
    ensures PickPoints(rs, position, s, g) >= 0
  {
  }

  /**
   * The page does not read the structured scoring rules: a custom rule set
   * worth 5 per goal, stored with the table's column defaults (2 per goal),
   * scores a one-goal skater 2.
   */
  lemma StructuredRulesIgnored()
    ensures
      var custom := RuleSetting("Custom", Some(2), Some(1), Some(3), Some(2), Some(0), Some(1), false, None, None,
                                RulesBlob(Some([ScoringRule("goal", "But", 5)]), None, 0), Some("custom"));
      PickPoints(custom, "C", NHLApi.PlayerStats(1, 0, 1, 1, 0), GoalieStats(None, None, None)) == 2
  {
  }

  // ---------------------------------------------------------------------------
  // Selected players
  // ---------------------------------------------------------------------------

  /** The statistics a row shows: the service's, with `points` replaced and goalie fields added. */
  datatype ShownStats = ShownStats(goals: int, assists: int, points: int, gamesPlayed: int, plusMinus: int,
                                   wins: Option<int>, shutouts: Option<int>)

  function Shown(rs: RuleSetting, position: string, s: NHLApi.PlayerStats, g: GoalieStats): (v: ShownStats)
    ensures v.points == PickPoints(rs, position, s, g)
    ensures v.plusMinus == s.plusMinus
    ensures position == Goalie ==> v.goals == 0 && v.assists == 0 && v.wins == Some(Col(g.wins))
                                   && v.shutouts == Some(Col(g.shutouts)) && v.gamesPlayed == Col(g.gamesPlayed)
    ensures position != Goalie ==> v.goals == s.goals && v.assists == s.assists && v.gamesPlayed == s.gamesPlayed
                                   && v.wins.None? && v.shutouts.None?
  {
    var points := PickPoints(rs, position, s, g);
    if position == Goalie then
      ShownStats(0, 0, points, Col(g.gamesPlayed), s.plusMinus, Some(Col(g.wins)), Some(Col(g.shutouts)))
    else
      ShownStats(s.goals, s.assists, points, s.gamesPlayed, s.plusMinus, None, None)
  }

  datatype SelectedPlayer = SelectedPlayer(pick: Draft.Pick, gamesInPool: nat, stats: ShownStats, canDelete: bool)

  /** `can_delete`: the viewer's own pick, while the viewer is still selecting. */
  predicate CanDelete(pick: Draft.Pick, viewerId: int, viewerStatus: Status) {
    pick.userId == viewerId && viewerStatus == Selection
  }

  function SelectedRow(rs: RuleSetting, src: StatsSource, w: Window, viewerId: int, viewerStatus: Status,
                       p: Draft.Pick): (row: SelectedPlayer)
    ensures row.pick == p
    ensures row.stats.points == PickPoints(rs, p.position, src.skater(p.nhlPlayerId, w.from, w.to),
                                           src.goalie(p.nhlPlayerId, w.from, w.to))
    ensures row.canDelete <==> p.userId == viewerId && viewerStatus == Selection
  {
    SelectedPlayer(p, src.teamGames(p.teamAbbrev, w.from, w.to),
                   Shown(rs, p.position, src.skater(p.nhlPlayerId, w.from, w.to), src.goalie(p.nhlPlayerId, w.from, w.to)),
                   CanDelete(p, viewerId, viewerStatus))
  }

  function RowPoints(r: SelectedPlayer): int { r.stats.points }

  function Rows(rs: RuleSetting, src: StatsSource, w: Window, viewerId: int, viewerStatus: Status,
                picks: seq<Draft.Pick>): (rows: seq<SelectedPlayer>)
    ensures |rows| == |picks|
    ensures forall i :: 0 <= i < |picks| ==> rows[i] == SelectedRow(rs, src, w, viewerId, viewerStatus, picks[i])
  {
    seq(|picks|, i requires 0 <= i < |picks| => SelectedRow(rs, src, w, viewerId, viewerStatus, picks[i]))
  }

  /** `selected_players`: the pool's picks as rows, by descending points. */
  function SelectedPlayers(rs: RuleSetting, src: StatsSource, w: Window, viewerId: int, viewerStatus: Status,
                           picks: seq<Draft.Pick>): seq<SelectedPlayer>
  {
    Sorting.SortByDesc(Rows(rs, src, w, viewerId, viewerStatus, picks), RowPoints)
  }

  /** The list holds one row per pick, highest points first, ties kept in pick order. */
  lemma SelectedPlayersRanked(rs: RuleSetting, src: StatsSource, w: Window, viewerId: int, viewerStatus: Status,
                              picks: seq<Draft.Pick>, k: int)
    ensures var rows := Rows(rs, src, w, viewerId, viewerStatus, picks);
            var listed := SelectedPlayers(rs, src, w, viewerId, viewerStatus, picks);
            && multiset(listed) == multiset(rows)
            && Sorting.SortedDesc(listed, RowPoints)
            && Sorting.WithKey(listed, RowPoints, k) == Sorting.WithKey(rows, RowPoints, k)
  {
    var rows := Rows(rs, src, w, viewerId, viewerStatus, picks);
    Sorting.SortByDescPermutes(rows, RowPoints);
    Sorting.SortByDescSorted(rows, RowPoints);
    Sorting.SortByDescStable(rows, RowPoints, k);
  }

  /**
   * As written, a member who has completed selection and opens the page on
   * the draft day is still in selection and may delete its own picks; the
   * intended status makes that member active, with no deletion offered.
   */
  lemma CompletedMemberStillSelecting(startDate: Day, members: seq<Membership>, viewerId: int, now: int, pick: Draft.Pick)
    requires viewerId in MemberIds(members) && pick.userId == viewerId
    ensures var completed := Completed(members, viewerId, now);
      && SelectionCompleted(completed, viewerId)
      && ViewerStatus(startDate, startDate) == Selection
      && CanDelete(pick, viewerId, ViewerStatus(startDate, startDate))
      && IntendedViewerStatus(startDate, completed, viewerId, startDate) == Active
      && !CanDelete(pick, viewerId, IntendedViewerStatus(startDate, completed, viewerId, startDate))
  {
    CompletionActivatesViewer(startDate, members, viewerId, startDate, now);
  }

  /** Once the viewer is active, no row of the page offers deletion. */
  lemma NoDeletionWhenActive(rs: RuleSetting, src: StatsSource, w: Window, viewerId: int, picks: seq<Draft.Pick>)
    ensures forall r :: r in SelectedPlayers(rs, src, w, viewerId, Active, picks) ==> !r.canDelete
  {
    var rows := Rows(rs, src, w, viewerId, Active, picks);
    Sorting.SortByDescPermutes(rows, RowPoints);
    forall r | r in SelectedPlayers(rs, src, w, viewerId, Active, picks)
      ensures !r.canDelete
    {
      assert r in multiset(rows);
    }
  }

  // ---------------------------------------------------------------------------
  // Participant totals
  // ---------------------------------------------------------------------------

  datatype Tally = Tally(goals: int, assists: int, points: int, plusMinus: int)

  /** What one pick adds to its owner's totals: a goalie adds points only. */
  function Contribution(rs: RuleSetting, src: StatsSource, w: Window, p: Draft.Pick): (t: Tally)
    ensures t.points == PickPoints(rs, p.position, src.skater(p.nhlPlayerId, w.from, w.to),
                                   src.goalie(p.nhlPlayerId, w.from, w.to))
    ensures p.position == Goalie ==> t.goals == 0 && t.assists == 0 && t.plusMinus == 0
  {
    var s := src.skater(p.nhlPlayerId, w.from, w.to);
    var points := PickPoints(rs, p.position, s, src.goalie(p.nhlPlayerId, w.from, w.to));
    if p.position == Goalie then Tally(0, 0, points, 0) else Tally(s.goals, s.assists, points, s.plusMinus)
  }

  function Add(a: Tally, b: Tally): Tally {
    Tally(a.goals + b.goals, a.assists + b.assists, a.points + b.points, a.plusMinus + b.plusMinus)
  }

  /** The totals of a participant's picks. */
  function Totals(rs: RuleSetting, src: StatsSource, w: Window, picks: seq<Draft.Pick>): Tally
    decreases |picks|
  {
    if picks == [] then Tally(0, 0, 0, 0)
    else Add(Totals(rs, src, w, picks[..|picks| - 1]), Contribution(rs, src, w, picks[|picks| - 1]))
  }

  lemma {:induction false} TotalsAppend(rs: RuleSetting, src: StatsSource, w: Window, a: seq<Draft.Pick>, b: seq<Draft.Pick>)
    ensures Totals(rs, src, w, a + b) == Add(Totals(rs, src, w, a), Totals(rs, src, w, b))
    decreases |b|
  {
    if b == [] {
      assert a + b == a;
    } else {
      assert (a + b)[..|a + b| - 1] == a + b[..|b| - 1];
      assert (a + b)[|a + b| - 1] == b[|b| - 1];
      TotalsAppend(rs, src, w, a, b[..|b| - 1]);
    }
  }

  /** Drafting a goalie changes a participant's points only, never its goals, assists or plus-minus. */
  lemma GoalieAddsOnlyPoints(rs: RuleSetting, src: StatsSource, w: Window, picks: seq<Draft.Pick>, g: Draft.Pick)
    requires g.position == Goalie
    ensures var before, after := Totals(rs, src, w, picks), Totals(rs, src, w, picks + [g]);
            after.goals == before.goals && after.assists == before.assists && after.plusMinus == before.plusMinus
  {
    assert (picks + [g])[..|picks|] == picks;
  }

  /** The picks of one user, in their order. */
  function PicksOf(picks: seq<Draft.Pick>, userId: int): (r: seq<Draft.Pick>)
    ensures |r| <= |picks|
    ensures forall p :: p in r <==> p in picks && p.userId == userId
    decreases |picks|
  {
    if picks == [] then []
    else PicksOf(picks[..|picks| - 1], userId) + (if picks[|picks| - 1].userId == userId then [picks[|picks| - 1]] else [])
  }

  /** The rows of one user's picks, in their order. */
  function RowsOf(rows: seq<SelectedPlayer>, userId: int): seq<SelectedPlayer>
    decreases |rows|
  {
    if rows == [] then []
    else RowsOf(rows[..|rows| - 1], userId) + (if rows[|rows| - 1].pick.userId == userId then [rows[|rows| - 1]] else [])
  }

  function SumRowPoints(rows: seq<SelectedPlayer>): int
    decreases |rows|
  {
    if rows == [] then 0 else SumRowPoints(rows[..|rows| - 1]) + RowPoints(rows[|rows| - 1])
  }

  lemma {:induction false} SumRowPointsAppend(a: seq<SelectedPlayer>, r: SelectedPlayer)
    ensures SumRowPoints(a + [r]) == SumRowPoints(a) + RowPoints(r)
  {
    assert (a + [r])[..|a|] == a;
  }

  lemma RowsPrefix(rs: RuleSetting, src: StatsSource, w: Window, viewerId: int, viewerStatus: Status, picks: seq<Draft.Pick>)
    requires picks != []
    ensures Rows(rs, src, w, viewerId, viewerStatus, picks)[..|picks| - 1] == Rows(rs, src, w, viewerId, viewerStatus, picks[..|picks| - 1])
  {
  }

  /** The points one user's picks add up to. */
  lemma TotalsStep(rs: RuleSetting, src: StatsSource, w: Window, mine: seq<Draft.Pick>, last: Draft.Pick)
    ensures Totals(rs, src, w, mine + [last]).points == Totals(rs, src, w, mine).points + Contribution(rs, src, w, last).points
  {
    assert (mine + [last])[..|mine|] == mine;
  }

  /**
   * The standings agree with the list: a participant's total points are the
   * sum of the points shown on that participant's rows.
   */
  lemma {:induction false} TotalsMatchRows(rs: RuleSetting, src: StatsSource, w: Window, viewerId: int, viewerStatus: Status,
                                           picks: seq<Draft.Pick>, userId: int)
    ensures Totals(rs, src, w, PicksOf(picks, userId)).points
            == SumRowPoints(RowsOf(Rows(rs, src, w, viewerId, viewerStatus, picks), userId))
    decreases |picks|
  {
    if picks != [] {
      var rows := Rows(rs, src, w, viewerId, viewerStatus, picks);
      var init, last := picks[..|picks| - 1], picks[|picks| - 1];
      var rowsInit, row := rows[..|rows| - 1], rows[|rows| - 1];
      RowsPrefix(rs, src, w, viewerId, viewerStatus, picks);
      assert rowsInit == Rows(rs, src, w, viewerId, viewerStatus, init);
      assert row == SelectedRow(rs, src, w, viewerId, viewerStatus, last);
      TotalsMatchRows(rs, src, w, viewerId, viewerStatus, init, userId);
      if last.userId == userId {
        assert PicksOf(picks, userId) == PicksOf(init, userId) + [last];
        assert RowsOf(rows, userId) == RowsOf(rowsInit, userId) + [row];
        TotalsStep(rs, src, w, PicksOf(init, userId), last);
        SumRowPointsAppend(RowsOf(rowsInit, userId), row);
      } else {
        assert row.pick == last;
        assert PicksOf(picks, userId) == PicksOf(init, userId) + [];
        assert PicksOf(init, userId) + [] == PicksOf(init, userId);
        assert RowsOf(rows, userId) == RowsOf(rowsInit, userId) + [];
        assert RowsOf(rowsInit, userId) + [] == RowsOf(rowsInit, userId);
      }
    }
  }

  datatype Participant = Participant(id: int, name: string, totalGoals: int, totalAssists: int, totalPoints: int,
                                     totalPlusMinus: int, activePlayers: nat, injuredPlayers: nat, isOwner: bool)

  /** The participant row the page shows for a user of the pool. */
  function ParticipantOf(rs: RuleSetting, src: StatsSource, w: Window, ownerId: int, picks: seq<Draft.Pick>, u: User): Participant {
    var mine := PicksOf(picks, u.id);
    var t := Totals(rs, src, w, mine);
    Participant(u.id, u.name, t.goals, t.assists, t.points, t.plusMinus, |mine|, 0, ownerId == u.id)
  }

  /** The running totals of one participant over its picks (injuries are not tracked: always 0). */
  method ParticipantTotals(rs: RuleSetting, src: StatsSource, w: Window, ownerId: int, picks: seq<Draft.Pick>, u: User)
    returns (row: Participant)
    ensures row == ParticipantOf(rs, src, w, ownerId, picks, u)
  {
    var mine := PicksOf(picks, u.id);
    var totalGoals, totalAssists, totalPoints, totalPlusMinus := 0, 0, 0, 0;
    for i := 0 to |mine|
      invariant Totals(rs, src, w, mine[..i]) == Tally(totalGoals, totalAssists, totalPoints, totalPlusMinus)
    {
      var p := mine[i];
      var stats := src.skater(p.nhlPlayerId, w.from, w.to);
      var playerPoints := 0;
      if p.position == Goalie {
        var goalieStats := src.goalie(p.nhlPlayerId, w.from, w.to);
        playerPoints := playerPoints + Col(goalieStats.wins) * Col(rs.pointsPerVictory);
        playerPoints := playerPoints + Col(goalieStats.shutouts) * Col(rs.pointsPerShutout);
      } else {
        totalGoals := totalGoals + stats.goals;
        totalAssists := totalAssists + stats.assists;
        totalPlusMinus := totalPlusMinus + stats.plusMinus;
        playerPoints := playerPoints + stats.goals * Col(rs.pointsPerGoal);
        playerPoints := playerPoints + stats.assists * Col(rs.pointsPerAssist);
      }
      totalPoints := totalPoints + playerPoints;
      assert mine[..i + 1][..i] == mine[..i];
    }
    assert mine[..|mine|] == mine;
    row := Participant(u.id, u.name, totalGoals, totalAssists, totalPoints, totalPlusMinus, |mine|, 0, ownerId == u.id);
  }

  function TotalPointsOf(p: Participant): int { p.totalPoints }

  /** The page's participants: one row per pool user, by descending total points. */
  function Standings(rs: RuleSetting, src: StatsSource, w: Window, ownerId: int, picks: seq<Draft.Pick>, users: seq<User>): seq<Participant> {
    Sorting.SortByDesc(seq(|users|, i requires 0 <= i < |users| => ParticipantOf(rs, src, w, ownerId, picks, users[i])),
                       TotalPointsOf)
  }

  /** The participants loop of the page, then the sort. */
  method Participants(rs: RuleSetting, src: StatsSource, w: Window, ownerId: int, picks: seq<Draft.Pick>, users: seq<User>)
    returns (ranked: seq<Participant>)
    ensures ranked == Standings(rs, src, w, ownerId, picks, users)
    ensures Sorting.SortedDesc(ranked, TotalPointsOf)
  {
    var rows: seq<Participant> := [];
    for i := 0 to |users|
      invariant rows == seq(i, k requires 0 <= k < i => ParticipantOf(rs, src, w, ownerId, picks, users[k]))
    {
      var row := ParticipantTotals(rs, src, w, ownerId, picks, users[i]);
      rows := rows + [row];
    }
    ranked := Sorting.SortByDesc(rows, TotalPointsOf);
    Sorting.SortByDescSorted(rows, TotalPointsOf);
  }

  // ---------------------------------------------------------------------------
  // Counts for the viewer
  // ---------------------------------------------------------------------------

  /** `current_user_player_count`: the viewer's picks in the pool. */
  function OwnedCount(picks: seq<Draft.Pick>, poolId: int, userId: int): (n: nat)
    ensures n <= |picks|
    decreases |picks|
  {
    if picks == [] then 0
    else (if picks[0].poolId == poolId && picks[0].userId == userId then 1 else 0) + OwnedCount(picks[1..], poolId, userId)
  }

  /** No position count exceeds the viewer's overall count. */
  lemma {:induction false} PositionCountWithinOwned(picks: seq<Draft.Pick>, poolId: int, userId: int, position: string)
    ensures Draft.CountAt(picks, poolId, userId, position) <= OwnedCount(picks, poolId, userId)
    decreases |picks|
  {
    if picks != [] {
      PositionCountWithinOwned(picks[1..], poolId, userId, position);
    }
  }

  /**
   * `position_counts`: for each position named in `by_position`, the viewer's
   * picks at that position; nothing when `by_position` is missing or empty.
   */
  method PositionCounts(limits: PlayerLimits, picks: seq<Draft.Pick>, poolId: int, viewerId: int)
    returns (counts: map<string, nat>)
    ensures counts.Keys == if limits.byPosition.Some? then limits.byPosition.value.Keys else {}
    ensures forall pos :: pos in counts ==> counts[pos] == Draft.CountAt(picks, poolId, viewerId, pos)
  {
    counts := map[];
    var byPosition := limits.byPosition.GetOr(map[]);
    if byPosition == map[] {
      return;
    }
    var positions := byPosition.Keys;
    var remaining := positions;
    while remaining != {}
      invariant remaining <= positions
      invariant counts.Keys == positions - remaining
      invariant forall pos :: pos in counts ==> counts[pos] == Draft.CountAt(picks, poolId, viewerId, pos)
      decreases |remaining|
    {
      var pos :| pos in remaining;
      counts := counts[pos := Draft.CountAt(picks, poolId, viewerId, pos)];
      remaining := remaining - {pos};
    }
  }

  // ---------------------------------------------------------------------------
  // The page
  // ---------------------------------------------------------------------------

  datatype Page = Page(
    poolId: int, name: string, status: Status, startDate: Day, endDate: Day, isAdmin: bool,
    selectedPlayers: seq<SelectedPlayer>, currentUserPlayerCount: nat, maxPlayersPerUser: int,
    positionLimits: Option<map<string, PositionLimit>>, positionCounts: map<string, nat>,
    participants: seq<Participant>)

  /** The picks of one pool, in table order (`$pool->poolPlayers`). */
  function PoolPicks(picks: seq<Draft.Pick>, poolId: int): (r: seq<Draft.Pick>)
    ensures forall p :: p in r <==> p in picks && p.poolId == poolId
    decreases |picks|
  {
    if picks == [] then []
    else PoolPicks(picks[..|picks| - 1], poolId) + (if picks[|picks| - 1].poolId == poolId then [picks[|picks| - 1]] else [])
  }

  /**
   * The pool page for a viewer. `users` is `$pool->users`, one user per
   * pivot row in pivot order, so a user attached twice is listed twice;
   * `picks` is the whole pick table and `rs` the pool's rule setting.
   */
  method Show(pool: Pool, viewer: User, today: Day, picks: seq<Draft.Pick>, rs: RuleSetting, users: seq<User>,
              src: StatsSource, formatDay: Day -> string)
    returns (page: Page)
    requires |users| == |pool.members| && forall i :: 0 <= i < |users| ==> users[i].id == pool.members[i].userId
    ensures today > pool.startDate || !SelectionCompleted(pool.members, viewer.id) ==>
              page.status == IntendedViewerStatus(pool.startDate, pool.members, viewer.id, today)
    ensures |page.participants| == |pool.members|
    ensures forall p :: p in page.participants ==> p.id in MemberIds(pool.members)
    ensures var w := ScoringWindow(pool.startDate, pool.endDate, formatDay);
            var status := ViewerStatus(pool.startDate, today);
            var mine := PoolPicks(picks, pool.id);
            var limits := GetPlayerLimits(rs);
            && page.status == status
            && page.isAdmin == IsPoolAdmin(viewer, pool.ownerId)
            && page.selectedPlayers == SelectedPlayers(rs, src, w, viewer.id, status, mine)
            && page.currentUserPlayerCount == OwnedCount(picks, pool.id, viewer.id)
            && page.maxPlayersPerUser == limits.maxPerUser.GetOr(20)
            && page.positionLimits == limits.byPosition
            && page.positionCounts.Keys == (if limits.byPosition.Some? then limits.byPosition.value.Keys else {})
            && (forall pos :: pos in page.positionCounts ==> page.positionCounts[pos] == Draft.CountAt(picks, pool.id, viewer.id, pos))
            && page.participants == Standings(rs, src, w, pool.ownerId, mine, users)
  {
    var status := ViewerStatus(pool.startDate, today);
    var w := ScoringWindow(pool.startDate, pool.endDate, formatDay);
    var mine := PoolPicks(picks, pool.id);
    var selected := SelectedPlayers(rs, src, w, viewer.id, status, mine);
    var limits := GetPlayerLimits(rs);
    var counts := PositionCounts(limits, picks, pool.id, viewer.id);
    var participants := Participants(rs, src, w, pool.ownerId, mine, users);
    var unsorted := seq(|users|, i requires 0 <= i < |users| => ParticipantOf(rs, src, w, pool.ownerId, mine, users[i]));
    Sorting.SortByDescPermutes(unsorted, TotalPointsOf);
    forall p | p in participants ensures p.id in MemberIds(pool.members) {
      assert p in multiset(unsorted);
      var i :| 0 <= i < |unsorted| && unsorted[i] == p;
      assert pool.members[i].userId == p.id;
    }
    page := Page(pool.id, pool.name, status, pool.startDate, pool.endDate, IsPoolAdmin(viewer, pool.ownerId),
                 selected, OwnedCount(picks, pool.id, viewer.id), limits.maxPerUser.GetOr(20), limits.byPosition,
                 counts, participants);
  }

  // ---------------------------------------------------------------------------
  // The dashboard
  // ---------------------------------------------------------------------------

  /** Which pools a user's dashboard lists, by the user's roles. */
  predicate Visible(user: User, v: PoolView) {
    if user.HasRole(SuperAdminRole) then true
    else if user.HasRole(PoolAdminRole) then v.ownerId == user.id
    else user.id in MemberIds(v.members)
  }

  /** The listed pools, in their order. */
  function Listed(views: seq<PoolView>, user: User): (r: seq<PoolView>)
    ensures |r| <= |views|
    ensures forall v :: v in r <==> v in views && Visible(user, v)
    decreases |views|
  {
    if views == [] then []
    else Listed(views[..|views| - 1], user) + (if Visible(user, views[|views| - 1]) then [views[|views| - 1]] else [])
  }

  /** The three role cases of the dashboard filter. */
  lemma DashboardFilter(views: seq<PoolView>, user: User, v: PoolView)
    requires v in views
    ensures user.HasRole(SuperAdminRole) ==> v in Listed(views, user)
    ensures !user.HasRole(SuperAdminRole) && user.HasRole(PoolAdminRole) ==> (v in Listed(views, user) <==> v.ownerId == user.id)
    ensures !user.HasRole(SuperAdminRole) && !user.HasRole(PoolAdminRole) ==> (v in Listed(views, user) <==> user.id in MemberIds(v.members))
  {
  }

  datatype DashboardRow = DashboardRow(id: int, name: string, status: Status, participantsCount: nat,
                                       ruleSetting: Option<string>, startDate: Day, endDate: Day, isOwner: bool)

  function DashRow(v: PoolView, today: Day, ruleNames: map<int, string>, user: User): (row: DashboardRow)
    ensures row.status == CalculateStatus(v.startDate, v.endDate, today)
    ensures row.participantsCount == |v.members|
    ensures row.isOwner <==> v.ownerId == user.id
  {
    DashboardRow(v.id, v.name, CalculateStatus(v.startDate, v.endDate, today), |v.members|,
                 if v.ruleSettingId in ruleNames then Some(ruleNames[v.ruleSettingId]) else None,
                 v.startDate, v.endDate, v.ownerId == user.id)
  }

  function DashRows(views: seq<PoolView>, today: Day, ruleNames: map<int, string>, user: User): (rows: seq<DashboardRow>)
    ensures |rows| == |views|
  {
    seq(|views|, i requires 0 <= i < |views| => DashRow(views[i], today, ruleNames, user))
  }

  function Views(pools: seq<Pool>): (vs: seq<PoolView>)
    reads pools
    ensures |vs| == |pools|
  {
    seq(|pools|, i reads pools requires 0 <= i < |pools| => pools[i].View())
  }

  lemma ViewsAre(pools: seq<Pool>, vs: seq<PoolView>)
    requires |vs| == |pools| && forall j :: 0 <= j < |pools| ==> pools[j].View() == vs[j]
    ensures Views(pools) == vs
  {
  }

  /** `calculateStatus` then `save` for each listed pool; unlisted pools are not touched. */
  method RefreshListed(pools: seq<Pool>, user: User, today: Day)
    requires forall i, j :: 0 <= i < |pools| && 0 <= j < |pools| && i != j ==> pools[i] != pools[j]
    modifies pools
    ensures Views(pools) == old(Views(pools))
    ensures forall j :: 0 <= j < |pools| ==>
              pools[j].status == if Visible(user, pools[j].View())
                                 then CalculateStatus(pools[j].startDate, pools[j].endDate, today)
                                 else old(pools[j].status)
  {
    ghost var vs := Views(pools);
    ghost var before := seq(|pools|, j reads pools requires 0 <= j < |pools| => pools[j].status);
    for i := 0 to |pools|
      invariant forall j :: 0 <= j < |pools| ==> pools[j].View() == vs[j]
      invariant forall j :: 0 <= j < i ==>
                  pools[j].status == if Visible(user, vs[j]) then CalculateStatus(vs[j].startDate, vs[j].endDate, today) else before[j]
      invariant forall j :: i <= j < |pools| ==> pools[j].status == before[j]
    {
      var p := pools[i];
      if Visible(user, p.View()) {
        p.UpdateStatus(today);
      }
    }
    ViewsAre(pools, vs);
  }

  /**
   * The dashboard: the pools the user may see (each with its status
   * recomputed and saved), the week's top five scorers, and whether the user
   * may create a pool.
   */
  method Dashboard(pools: seq<Pool>, user: User, today: Day, ruleNames: map<int, string>,
                   topCache: NHLApi.Cache<seq<NHLApi.TopScorer>>, now: int, upstream: NHLApi.SummaryResponse)
    returns (rows: seq<DashboardRow>, topScorers: seq<NHLApi.TopScorer>, canCreatePool: bool)
    requires forall i, j :: 0 <= i < |pools| && 0 <= j < |pools| && i != j ==> pools[i] != pools[j]
    modifies pools, topCache
    ensures Views(pools) == old(Views(pools))
    ensures rows == DashRows(Listed(Views(pools), user), today, ruleNames, user)
    ensures forall j :: 0 <= j < |pools| ==>
              pools[j].status == if Visible(user, pools[j].View())
                                 then CalculateStatus(pools[j].startDate, pools[j].endDate, today)
                                 else old(pools[j].status)
    ensures old(topCache.Lookup(NHLApi.TopScorersKey, now)).Some? ==>
              topScorers == old(topCache.Lookup(NHLApi.TopScorersKey, now)).value
    ensures old(topCache.Lookup(NHLApi.TopScorersKey, now)).None? ==> topScorers == NHLApi.TopScorers(upstream, 5)
    ensures canCreatePool <==> user.HasRole(SuperAdminRole) || user.HasRole(PoolAdminRole)
  {
    RefreshListed(pools, user, today);
    rows := DashRows(Listed(Views(pools), user), today, ruleNames, user);
    var requested;
    topScorers, requested := NHLApi.GetTopScorers(topCache, 5, now, upstream);
    canCreatePool := user.HasRole(SuperAdminRole) || user.HasRole(PoolAdminRole);
  }
}
