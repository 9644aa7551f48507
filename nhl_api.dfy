/**
 * The statistics service (app/Services/NHLApiService.php). The HTTP layer is
 * an input: each operation receives the response the upstream would give
 * (a failure, or the decoded payload), and the Laravel cache is a `Cache`
 * object keyed by the same strings the service builds.
 */
module NHLApi {
  import opened Wrappers
  import opened PhpStrings

  const CurrentSeason: string := "20252026"

  // ---------------------------------------------------------------------------
  // The cache (`Cache::remember`)
  // ---------------------------------------------------------------------------

  /** Time to live of each key family, in seconds. */
  const TopScorersTtl: nat := 6 * 3600
  const AllPlayersTtl: nat := 24 * 3600
  const SearchTtl: nat := 6 * 3600
  const TeamGamesTtl: nat := 6 * 3600
  const PlayerStatsTtl: nat := 60

  datatype Entry<V> = Entry(value: V, expiresAt: int)

  /**
   * A keyed store with expiry. `Cache::remember` returns the stored value while
   * it has not expired and otherwise runs its closure and stores whatever the
   * closure returns, failure defaults included.
   */
  class Cache<V> {
    var entries: map<string, Entry<V>>

    constructor ()
      ensures entries == map[]
    {
      entries := map[];
    }

    /** The value a lookup at time `now` finds: present and not yet expired. */
    function Lookup(key: string, now: int): (r: Option<V>)
      reads this
      ensures r.Some? <==> key in entries && now < entries[key].expiresAt
      ensures r.Some? ==> r.value == entries[key].value
    {
      if key in entries && now < entries[key].expiresAt then Some(entries[key].value) else None
    }

    method Put(key: string, value: V, now: int, ttl: nat)
      modifies this
      ensures entries == old(entries)[key := Entry(value, now + ttl)]
    {
      entries := entries[key := Entry(value, now + ttl)];
    }
  }

  // ---------------------------------------------------------------------------
  // Per-player stats over a date window (`getPlayerStatsInDateRange`)
  // ---------------------------------------------------------------------------

  /** One per-game record of the skater summary; any field may be missing. */
  datatype GameRecord = GameRecord(goals: Option<int>, assists: Option<int>, points: Option<int>, plusMinus: Option<int>)

  /** A failed request, or the `data` array of a successful one (`json('data', [])`). */
  datatype StatsResponse = StatsFailed | StatsOk(data: seq<GameRecord>)

  datatype PlayerStats = PlayerStats(goals: int, assists: int, points: int, gamesPlayed: int, plusMinus: int)

  const NoStats: PlayerStats := PlayerStats(0, 0, 0, 0, 0)

  function GoalsOf(g: GameRecord): int { g.goals.GetOr(0) }
  function AssistsOf(g: GameRecord): int { g.assists.GetOr(0) }
  function PointsOf(g: GameRecord): int { g.points.GetOr(0) }
  function PlusMinusOf(g: GameRecord): int { g.plusMinus.GetOr(0) }

  /** Sum of one field over the records, a missing field counting as 0. */
  function Total(data: seq<GameRecord>, f: GameRecord -> int): int
    decreases |data|
  {
    if data == [] then 0 else Total(data[..|data| - 1], f) + f(data[|data| - 1])
  }

  /** Window totals: additive fields summed, games played counted. */
  function WindowTotals(data: seq<GameRecord>): (s: PlayerStats)
    ensures s.gamesPlayed == |data|
  {
    PlayerStats(Total(data, GoalsOf), Total(data, AssistsOf), Total(data, PointsOf), |data|, Total(data, PlusMinusOf))
  }

  /** What the service answers for a response: all zeros on failure, the window totals otherwise. */
  function StatsFor(resp: StatsResponse): PlayerStats {
    if resp.StatsFailed? then NoStats else WindowTotals(resp.data)
  }

  /** An empty window totals to zero, so "no data" and "failure" give the same answer. */
  lemma EmptyWindowIsZero()
    ensures WindowTotals([]) == NoStats
    ensures StatsFor(StatsOk([])) == StatsFor(StatsFailed)
  {
  }

  lemma {:induction false} TotalAppend(a: seq<GameRecord>, b: seq<GameRecord>, f: GameRecord -> int)
    ensures Total(a + b, f) == Total(a, f) + Total(b, f)
    decreases |b|
  {
    if b == [] {
      assert a + b == a;
    } else {
      var b' := b[..|b| - 1];
      assert (a + b)[..|a + b| - 1] == a + b';
      assert (a + b)[|a + b| - 1] == b[|b| - 1];
      TotalAppend(a, b', f);
    }
  }

  function AddStats(x: PlayerStats, y: PlayerStats): PlayerStats {
    PlayerStats(x.goals + y.goals, x.assists + y.assists, x.points + y.points,
                x.gamesPlayed + y.gamesPlayed, x.plusMinus + y.plusMinus)
  }

  /** Summation by game: the totals of two runs of games are the sum of their totals. */
  lemma WindowTotalsAppend(a: seq<GameRecord>, b: seq<GameRecord>)
    ensures WindowTotals(a + b) == AddStats(WindowTotals(a), WindowTotals(b))
  {
    TotalAppend(a, b, GoalsOf);
    TotalAppend(a, b, AssistsOf);
    TotalAppend(a, b, PointsOf);
    TotalAppend(a, b, PlusMinusOf);
  }

  /** The aggregation loop of `getPlayerStatsInDateRange` (running totals over the records). */
  method AggregatePlayerStats(resp: StatsResponse) returns (s: PlayerStats)
    ensures s == StatsFor(resp)
    ensures resp.StatsFailed? ==> s == NoStats
    ensures resp.StatsOk? ==> s.gamesPlayed == |resp.data|
  {
    if resp.StatsFailed? || resp.data == [] {
      return NoStats;
    }
    var data := resp.data;
    var goals, assists, points, plusMinus := 0, 0, 0, 0;
    var gamesPlayed := |data|;
    for i := 0 to |data|
      invariant goals == Total(data[..i], GoalsOf)
      invariant assists == Total(data[..i], AssistsOf)
      invariant points == Total(data[..i], PointsOf)
      invariant plusMinus == Total(data[..i], PlusMinusOf)
    {
      assert data[..i + 1][..i] == data[..i];
      goals := goals + GoalsOf(data[i]);
      assists := assists + AssistsOf(data[i]);
      points := points + PointsOf(data[i]);
      plusMinus := plusMinus + PlusMinusOf(data[i]);
    }
    assert data[..|data|] == data;
    s := PlayerStats(goals, assists, points, gamesPlayed, plusMinus);
  }

  function PlayerStatsKey(playerId: int, startDate: string, endDate: string): string {
    "nhl_player_stats_" + IntToString(playerId) + "_" + startDate + "_" + endDate
  }

  /**
   * `getPlayerStatsInDateRange` behind the cache: a live entry is returned
   * without a request; otherwise the response is aggregated and stored for
   * one minute (a failure's zeros included).
   */
  method GetPlayerStatsInDateRange(cache: Cache<PlayerStats>, playerId: int, startDate: string, endDate: string,
                                   now: int, upstream: StatsResponse)
    returns (s: PlayerStats, requested: bool)
    modifies cache
    ensures var key := PlayerStatsKey(playerId, startDate, endDate);
      && (requested <==> old(cache.Lookup(key, now)).None?)
      && (!requested ==> s == old(cache.Lookup(key, now)).value && cache.entries == old(cache.entries))
      && (requested ==> s == StatsFor(upstream)
                        && cache.entries == old(cache.entries)[key := Entry(s, now + PlayerStatsTtl)])
  {
    var key := PlayerStatsKey(playerId, startDate, endDate);
    var cached := cache.Lookup(key, now);
    if cached.Some? {
      s, requested := cached.value, false;
    } else {
      s := AggregatePlayerStats(upstream);
      requested := true;
      cache.Put(key, s, now, PlayerStatsTtl);
    }
  }

  // ---------------------------------------------------------------------------
  // Team lookup tables (`getTeamFullName`, `getTeamIdFromAbbrev`)
  // ---------------------------------------------------------------------------

  const TeamNames: map<string, string> := map[
    "ANA" := "Anaheim Ducks", "BOS" := "Boston Bruins", "BUF" := "Buffalo Sabres",
    "CAR" := "Carolina Hurricanes", "CBJ" := "Columbus Blue Jackets", "CGY" := "Calgary Flames",
    "CHI" := "Chicago Blackhawks", "COL" := "Colorado Avalanche", "DAL" := "Dallas Stars",
    "DET" := "Detroit Red Wings", "EDM" := "Edmonton Oilers", "FLA" := "Florida Panthers",
    "LAK" := "Los Angeles Kings", "MIN" := "Minnesota Wild", "MTL" := "Montreal Canadiens",
    "NJD" := "New Jersey Devils", "NSH" := "Nashville Predators", "NYI" := "New York Islanders",
    "NYR" := "New York Rangers", "OTT" := "Ottawa Senators", "PHI" := "Philadelphia Flyers",
    "PIT" := "Pittsburgh Penguins", "SEA" := "Seattle Kraken", "SJS" := "San Jose Sharks",
    "STL" := "St. Louis Blues", "TBL" := "Tampa Bay Lightning", "TOR" := "Toronto Maple Leafs",
    "UTA" := "Utah Hockey Club", "VAN" := "Vancouver Canucks", "VGK" := "Vegas Golden Knights",
    "WPG" := "Winnipeg Jets", "WSH" := "Washington Capitals"]

  const TeamIds: map<string, int> := map[
    "ANA" := 24, "BOS" := 6, "BUF" := 7, "CAR" := 12, "CBJ" := 29,
    "CGY" := 20, "CHI" := 16, "COL" := 21, "DAL" := 25, "DET" := 17,
    "EDM" := 22, "FLA" := 13, "LAK" := 26, "MIN" := 30, "MTL" := 8,
    "NJD" := 1, "NSH" := 18, "NYI" := 2, "NYR" := 3, "OTT" := 9,
    "PHI" := 4, "PIT" := 5, "SEA" := 55, "SJS" := 28, "STL" := 19,
    "TBL" := 14, "TOR" := 10, "UTA" := 53, "VAN" := 23, "VGK" := 54,
    "WPG" := 52, "WSH" := 15]

  /** `getTeamFullName`: the mapped name, or the abbreviation itself when unknown. */
  function TeamFullName(abbrev: string): (name: string)
    ensures abbrev in TeamNames ==> name == TeamNames[abbrev]
    ensures abbrev !in TeamNames ==> name == abbrev
  {
    if abbrev in TeamNames then TeamNames[abbrev] else abbrev
  }

  /** Both tables know the same teams. */
  lemma TeamTablesAgree()
    ensures TeamIds.Keys == TeamNames.Keys
  {
  }

  /** Every team id is positive, so a known team always has a truthy id. */
  lemma TeamIdsPositive()
    ensures forall a :: a in TeamIds ==> TeamIds[a] > 0
  {
  }

  /** A full name never equals its abbreviation, so the fallback is recognisable. */
  lemma TeamFullNameFallsBackExactlyWhenUnknown(abbrev: string)
    ensures TeamFullName(abbrev) == abbrev <==> abbrev !in TeamNames
  {
    if abbrev in TeamNames {
      assert |abbrev| == 3 by {
        assert forall a :: a in TeamNames ==> |a| == 3;
      }
      assert forall a :: a in TeamNames ==> |TeamNames[a]| > 3;
    }
  }

  // ---------------------------------------------------------------------------
  // Team games in a date window (`getTeamGamesInDateRange`)
  // ---------------------------------------------------------------------------

  datatype ScheduledGame = ScheduledGame(gameDate: Option<string>)

  datatype ScheduleResponse = ScheduleFailed | ScheduleOk(games: seq<ScheduledGame>)

  /**
   * A game counts when it has a (truthy) `gameDate` whose first ten
   * characters lie in [startDate, endDate], compared as strings, both bounds
   * included.
   */
  predicate InWindow(g: ScheduledGame, startDate: string, endDate: string) {
    g.gameDate.Some? && Truthy(g.gameDate.value)
    && StrLe(startDate, Prefix(g.gameDate.value, 10))
    && StrLe(Prefix(g.gameDate.value, 10), endDate)
  }

  function CountInWindow(games: seq<ScheduledGame>, startDate: string, endDate: string): (n: nat)
    ensures n <= |games|
    decreases |games|
  {
    if games == [] then 0
    else CountInWindow(games[..|games| - 1], startDate, endDate)
         + (if InWindow(games[|games| - 1], startDate, endDate) then 1 else 0)
  }

  /** Counting one more game adds one exactly when that game lies in the window. */
  lemma CountInWindowStep(games: seq<ScheduledGame>, g: ScheduledGame, startDate: string, endDate: string)
    ensures CountInWindow(games + [g], startDate, endDate)
            == CountInWindow(games, startDate, endDate) + (if InWindow(g, startDate, endDate) then 1 else 0)
  {
  }

  /** The count is zero exactly when no game lies in the window. */
  lemma {:induction false} NoneInWindow(games: seq<ScheduledGame>, startDate: string, endDate: string)
    ensures CountInWindow(games, startDate, endDate) == 0
            <==> forall i :: 0 <= i < |games| ==> !InWindow(games[i], startDate, endDate)
    decreases |games|
  {
    if games != [] {
      var init := games[..|games| - 1];
      NoneInWindow(init, startDate, endDate);
      assert forall i :: 0 <= i < |init| ==> init[i] == games[i];
    }
  }

  /** The count equals the number of games exactly when every game lies in the window. */
  lemma {:induction false} AllInWindow(games: seq<ScheduledGame>, startDate: string, endDate: string)
    ensures CountInWindow(games, startDate, endDate) == |games|
            <==> forall i :: 0 <= i < |games| ==> InWindow(games[i], startDate, endDate)
    decreases |games|
  {
    if games != [] {
      var init := games[..|games| - 1];
      AllInWindow(init, startDate, endDate);
      assert forall i :: 0 <= i < |init| ==> init[i] == games[i];
    }
  }

  /** The closure of `getTeamGamesInDateRange`: 0 for an unknown team or a failed schedule. */
  function TeamGames(teamAbbrev: string, resp: ScheduleResponse, startDate: string, endDate: string): (n: nat)
    ensures teamAbbrev !in TeamIds || resp.ScheduleFailed? ==> n == 0
    ensures teamAbbrev in TeamIds && resp.ScheduleOk? ==> n == CountInWindow(resp.games, startDate, endDate)
    ensures resp.ScheduleOk? ==> n <= |resp.games|
  {
    if teamAbbrev !in TeamIds then 0
    else if resp.ScheduleFailed? then 0
    else CountInWindow(resp.games, startDate, endDate)
  }

  /** Games without a date never count, so adding them does not change the count. */
  lemma {:induction false} UndatedGamesDoNotCount(games: seq<ScheduledGame>, startDate: string, endDate: string)
    ensures CountInWindow(games + [ScheduledGame(None)], startDate, endDate) == CountInWindow(games, startDate, endDate)
  {
    assert (games + [ScheduledGame(None)])[..|games|] == games;
  }

  /** A narrower window never counts more games. */
  lemma {:induction false} NarrowerWindowCountsLess(games: seq<ScheduledGame>, s1: string, e1: string, s2: string, e2: string)
    requires StrLe(s1, s2) && StrLe(e2, e1)
    ensures CountInWindow(games, s2, e2) <= CountInWindow(games, s1, e1)
    decreases |games|
  {
    if games != [] {
      NarrowerWindowCountsLess(games[..|games| - 1], s1, e1, s2, e2);
      var g := games[|games| - 1];
      if InWindow(g, s2, e2) {
        var d := Prefix(g.gameDate.value, 10);
        StrLeTransitive(s1, s2, d);
        StrLeTransitive(d, e2, e1);
      }
    }
  }

  function TeamGamesKey(teamAbbrev: string, startDate: string, endDate: string): string {
    "nhl_team_games_" + teamAbbrev + "_" + startDate + "_" + endDate
  }

  /** Within one window, different teams have different cache keys. */
  lemma TeamGamesKeyInjective(a: string, b: string, startDate: string, endDate: string)
    requires TeamGamesKey(a, startDate, endDate) == TeamGamesKey(b, startDate, endDate)
    ensures a == b
  {
    var k := TeamGamesKey(a, startDate, endDate);
    var prefix := "nhl_team_games_";
    var suffix := "_" + startDate + "_" + endDate;
    assert k == prefix + a + suffix;
    assert k == prefix + b + suffix;
    assert |a| == |b|;
    assert a == k[|prefix|..|prefix| + |a|];
    assert b == k[|prefix|..|prefix| + |b|];
  }

  /**
   * What `getTeamGamesInDateRange` answers at time `now` given the cache
   * contents: the live cached count, or else the count of the schedule.
   */
  function CachedTeamGames(entries: map<string, Entry<nat>>, teamAbbrev: string, startDate: string, endDate: string,
                           now: int, upstream: ScheduleResponse): nat
  {
    var key := TeamGamesKey(teamAbbrev, startDate, endDate);
    if key in entries && now < entries[key].expiresAt then entries[key].value
    else TeamGames(teamAbbrev, upstream, startDate, endDate)
  }

  /** Two cache states give every team the same answer for this window. */
  ghost predicate SameAnswers(a: map<string, Entry<nat>>, b: map<string, Entry<nat>>, startDate: string, endDate: string,
                              now: int, schedules: string -> ScheduleResponse) {
    forall t :: CachedTeamGames(a, t, startDate, endDate, now, schedules(t)) == CachedTeamGames(b, t, startDate, endDate, now, schedules(t))
  }

  /**
   * A miss that stores the fresh count of `teamAbbrev` changes no team's
   * answer in the same window: that team's answer was the fresh count
   * already, and every other team has a different key.
   */
  lemma MissKeepsAnswers(entries: map<string, Entry<nat>>, teamAbbrev: string, startDate: string, endDate: string,
                         now: int, schedules: string -> ScheduleResponse)
    requires var key := TeamGamesKey(teamAbbrev, startDate, endDate);
      !(key in entries && now < entries[key].expiresAt)
    ensures var key := TeamGamesKey(teamAbbrev, startDate, endDate);
      var after := entries[key := Entry(TeamGames(teamAbbrev, schedules(teamAbbrev), startDate, endDate), now + TeamGamesTtl)];
      forall t :: CachedTeamGames(after, t, startDate, endDate, now, schedules(t))
                  == CachedTeamGames(entries, t, startDate, endDate, now, schedules(t))
  {
    var key := TeamGamesKey(teamAbbrev, startDate, endDate);
    forall t ensures TeamGamesKey(t, startDate, endDate) == key ==> t == teamAbbrev {
      if TeamGamesKey(t, startDate, endDate) == key {
        TeamGamesKeyInjective(t, teamAbbrev, startDate, endDate);
      }
    }
  }

  /**
   * `getTeamGamesInDateRange` behind the six-hour cache. On a miss a request is
   * issued only for a known team; the result (0 included) is stored either way.
   */
  method GetTeamGamesInDateRange(cache: Cache<nat>, teamAbbrev: string, startDate: string, endDate: string,
                                 now: int, upstream: ScheduleResponse)
    returns (n: nat, requested: bool)
    modifies cache
    ensures var key := TeamGamesKey(teamAbbrev, startDate, endDate);
      && (requested <==> old(cache.Lookup(key, now)).None? && teamAbbrev in TeamIds)
      && (old(cache.Lookup(key, now)).Some? ==> n == old(cache.Lookup(key, now)).value && cache.entries == old(cache.entries))
      && (old(cache.Lookup(key, now)).None? ==>
            (n == TeamGames(teamAbbrev, upstream, startDate, endDate)
             && cache.entries == old(cache.entries)[key := Entry(n, now + TeamGamesTtl)]))
    ensures n == CachedTeamGames(old(cache.entries), teamAbbrev, startDate, endDate, now, upstream)
    ensures CachedTeamGames(cache.entries, teamAbbrev, startDate, endDate, now, upstream) == n
  {
    var key := TeamGamesKey(teamAbbrev, startDate, endDate);
    var cached := cache.Lookup(key, now);
    if cached.Some? {
      n, requested := cached.value, false;
    } else {
      requested := teamAbbrev in TeamIds;
      n := TeamGames(teamAbbrev, upstream, startDate, endDate);
      cache.Put(key, n, now, TeamGamesTtl);
    }
  }

  // ---------------------------------------------------------------------------
  // Player listings: top scorers, all players, search
  // ---------------------------------------------------------------------------

  /** A float passed through untouched (`shootingPct`, 0 when missing), kept as its JSON text. */
  datatype Decimal = Decimal(text: string)

  /** One row of the `skater/summary` payload; every field may be missing. */
  datatype SkaterRow = SkaterRow(
    playerId: Option<int>, skaterFullName: Option<string>, positionCode: Option<string>,
    teamAbbrev: Option<string>, teamAbbrevs: Option<string>,
    points: Option<int>, goals: Option<int>, assists: Option<int>, gamesPlayed: Option<int>,
    plusMinus: Option<int>, penaltyMinutes: Option<int>, shots: Option<int>, shootingPct: Option<Decimal>)

  datatype SummaryResponse = SummaryFailed | SummaryOk(data: seq<SkaterRow>, total: Option<int>)

  /** First name: the first space-separated token. */
  function FirstName(fullName: string): string {
    Explode(fullName)[0]
  }

  /** Last name: the remaining tokens joined by spaces, or the first token when that is falsy. */
  function LastName(fullName: string): string {
    var rest := Implode(Explode(fullName)[1..]);
    if Truthy(rest) then rest else Explode(fullName)[0]
  }

  /**
   * With a space in the name, first and last name are the text before and
   * after the first space (unless the rest is falsy); without one, both are
   * the whole name.
   */
  lemma NameSplit(fullName: string)
    ensures ' ' !in FirstName(fullName)
    ensures ' ' !in fullName ==> FirstName(fullName) == fullName && LastName(fullName) == fullName
    ensures ' ' in fullName ==>
      var rest := Implode(Explode(fullName)[1..]);
      && fullName == FirstName(fullName) + " " + rest
      && LastName(fullName) == (if Truthy(rest) then rest else FirstName(fullName))
  {
    var parts := Explode(fullName);
    ExplodeTokensHaveNoSpace(fullName);
    ExplodeCount(fullName);
    ImplodeExplode(fullName);
    if ' ' in fullName {
      assert Implode(parts) == parts[0] + " " + Implode(parts[1..]);
    } else {
      assert |parts| == 1;
    }
  }

  /** `getPlayerHeadshotUrl`: the season mug shot with a team, the generic one without. */
  function HeadshotUrl(playerId: int, teamAbbrev: string): string {
    if Truthy(teamAbbrev)
    then "https://assets.nhle.com/mugs/nhl/" + CurrentSeason + "/" + teamAbbrev + "/" + IntToString(playerId) + ".png"
    else "https://nhl.bamcontent.com/images/headshots/current/168x168/" + IntToString(playerId) + ".png"
  }

  datatype TopScorer = TopScorer(
    id: int, firstName: string, lastName: string, fullName: string, position: string,
    teamName: string, teamAbbrev: string, points: int, goals: int, assists: int,
    gamesPlayed: int, headshotUrl: string)

  /** The top-scorers mapping of one row (team from `teamAbbrev`, no sweater number). */
  function ToTopScorer(row: SkaterRow): TopScorer {
    var fullName := row.skaterFullName.GetOr("");
    var team := row.teamAbbrev.GetOr("");
    TopScorer(row.playerId.GetOr(0), FirstName(fullName), LastName(fullName), fullName,
              row.positionCode.GetOr(""), TeamFullName(team), team,
              row.points.GetOr(0), row.goals.GetOr(0), row.assists.GetOr(0),
              row.gamesPlayed.GetOr(0), HeadshotUrl(row.playerId.GetOr(0), team))
  }

  /** Laravel's `take($n)`: the first n items, or for negative n the last -n. */
  function Take<T>(s: seq<T>, n: int): (r: seq<T>)
    ensures |r| <= |s|
    ensures n >= 0 ==> |r| == if n < |s| then n else |s|
    ensures n >= 0 ==> r == s[..|r|]
  {
    if n >= 0 then (if n < |s| then s[..n] else s)
    else (if -n < |s| then s[|s| + n..] else s)
  }

  /** The closure of `getTopScorers`: [] on failure, else at most `limit` mapped rows, in payload order. */
  function TopScorers(resp: SummaryResponse, limit: int): (r: seq<TopScorer>)
    ensures resp.SummaryFailed? ==> r == []
    ensures limit >= 0 ==> |r| <= limit
    ensures resp.SummaryOk? ==> |r| <= |resp.data|
    ensures resp.SummaryOk? && limit >= 0 ==> forall i :: 0 <= i < |r| ==> r[i] == ToTopScorer(resp.data[i])
  {
    if resp.SummaryFailed? then []
    else
      var rows := Take(resp.data, limit);
      seq(|rows|, i requires 0 <= i < |rows| => ToTopScorer(rows[i]))
  }

  const TopScorersKey: string := "nhl_top_scorers"

  /**
   * `getTopScorers` behind the cache. The key does not mention `limit`, so a
   * live entry is returned whatever limit the caller asks for now.
   */
  method GetTopScorers(cache: Cache<seq<TopScorer>>, limit: int, now: int, upstream: SummaryResponse)
    returns (r: seq<TopScorer>, requested: bool)
    modifies cache
    ensures requested <==> old(cache.Lookup(TopScorersKey, now)).None?
    ensures !requested ==> r == old(cache.Lookup(TopScorersKey, now)).value && cache.entries == old(cache.entries)
    ensures requested ==>
              (r == TopScorers(upstream, limit)
               && cache.entries == old(cache.entries)[TopScorersKey := Entry(r, now + TopScorersTtl)])
  {
    var cached := cache.Lookup(TopScorersKey, now);
    if cached.Some? {
      r, requested := cached.value, false;
    } else {
      r, requested := TopScorers(upstream, limit), true;
      cache.Put(TopScorersKey, r, now, TopScorersTtl);
    }
  }

  /**
   * Two calls on an empty cache within the time to live: the first issues a
   * request, the second issues none and returns what the first did, even
   * with another limit and another upstream answer.
   */
  method TopScorersTwice(cache: Cache<seq<TopScorer>>, limit1: int, limit2: int, now1: int, now2: int,
                         up1: SummaryResponse, up2: SummaryResponse)
    returns (r1: seq<TopScorer>, r2: seq<TopScorer>, requested1: bool, requested2: bool)
    requires cache.entries == map[]
    requires now1 <= now2 < now1 + TopScorersTtl
    modifies cache
    ensures requested1 && !requested2 && r2 == r1
  {
    r1, requested1 := GetTopScorers(cache, limit1, now1, up1);
    r2, requested2 := GetTopScorers(cache, limit2, now2, up2);
  }

  datatype PlayerSummary = PlayerSummary(
    id: int, firstName: string, lastName: string, fullName: string, position: string,
    teamAbbrev: string, teamName: string, points: int, goals: int, assists: int,
    gamesPlayed: int, plusMinus: int, penaltyMinutes: int, shots: int,
    shootingPct: Decimal, headshotUrl: string)

  /** The listing/search mapping of one row (team from `teamAbbrevs`). */
  function ToPlayerSummary(row: SkaterRow): PlayerSummary {
    var fullName := row.skaterFullName.GetOr("");
    var team := row.teamAbbrevs.GetOr("");
    PlayerSummary(row.playerId.GetOr(0), FirstName(fullName), LastName(fullName), fullName,
                  row.positionCode.GetOr(""), team, TeamFullName(team),
                  row.points.GetOr(0), row.goals.GetOr(0), row.assists.GetOr(0), row.gamesPlayed.GetOr(0),
                  row.plusMinus.GetOr(0), row.penaltyMinutes.GetOr(0), row.shots.GetOr(0),
                  row.shootingPct.GetOr(Decimal("0")), HeadshotUrl(row.playerId.GetOr(0), team))
  }

  datatype PlayerPage = PlayerPage(data: seq<PlayerSummary>, total: int)

  /** The closure of `getAllPlayers` and `searchPlayers`: an empty page on failure, else every row mapped. */
  function PlayerPageOf(resp: SummaryResponse): (p: PlayerPage)
    ensures resp.SummaryFailed? ==> p == PlayerPage([], 0)
    ensures resp.SummaryOk? ==> p.total == resp.total.GetOr(0) && |p.data| == |resp.data|
    ensures resp.SummaryOk? ==> forall i :: 0 <= i < |p.data| ==> p.data[i] == ToPlayerSummary(resp.data[i])
  {
    if resp.SummaryFailed? then PlayerPage([], 0)
    else PlayerPage(seq(|resp.data|, i requires 0 <= i < |resp.data| => ToPlayerSummary(resp.data[i])),
                    resp.total.GetOr(0))
  }

  function AllPlayersKey(limit: int, start: int): string {
    "nhl_all_players_" + IntToString(start) + "_" + IntToString(limit)
  }

  function SearchKey(query: string, limit: int): string {
    "nhl_search_" + Lower(query) + "_" + IntToString(limit)
  }

  /** Queries that differ only in letter case share one cache entry. */
  lemma SearchKeyIgnoresCase(q1: string, q2: string, limit: int)
    requires Lower(q1) == Lower(q2)
    ensures SearchKey(q1, limit) == SearchKey(q2, limit)
  {
  }

  /** `getAllPlayers` behind the 24-hour cache. */
  method GetAllPlayers(cache: Cache<PlayerPage>, limit: int, start: int, now: int, upstream: SummaryResponse)
    returns (p: PlayerPage, requested: bool)
    modifies cache
    ensures var key := AllPlayersKey(limit, start);
      && (requested <==> old(cache.Lookup(key, now)).None?)
      && (!requested ==> p == old(cache.Lookup(key, now)).value && cache.entries == old(cache.entries))
      && (requested ==> p == PlayerPageOf(upstream)
                        && cache.entries == old(cache.entries)[key := Entry(p, now + AllPlayersTtl)])
  {
    var key := AllPlayersKey(limit, start);
    var cached := cache.Lookup(key, now);
    if cached.Some? {
      p, requested := cached.value, false;
    } else {
      p, requested := PlayerPageOf(upstream), true;
      cache.Put(key, p, now, AllPlayersTtl);
    }
  }

  /**
   * `searchPlayers` behind the six-hour cache. Name matching is done by the
   * upstream query, not here: the page is the upstream rows, mapped.
   */
  method SearchPlayers(cache: Cache<PlayerPage>, query: string, limit: int, now: int, upstream: SummaryResponse)
    returns (p: PlayerPage, requested: bool)
    modifies cache
    ensures var key := SearchKey(query, limit);
      && (requested <==> old(cache.Lookup(key, now)).None?)
      && (!requested ==> p == old(cache.Lookup(key, now)).value && cache.entries == old(cache.entries))
      && (requested ==> p == PlayerPageOf(upstream)
                        && cache.entries == old(cache.entries)[key := Entry(p, now + SearchTtl)])
  {
    var key := SearchKey(query, limit);
    var cached := cache.Lookup(key, now);
    if cached.Some? {
      p, requested := cached.value, false;
    } else {
      p, requested := PlayerPageOf(upstream), true;
      cache.Put(key, p, now, SearchTtl);
    }
  }

  /** On an empty cache, a search repeated in other letter case within the time to live is served from the cache. */
  method SearchTwiceInOtherCase(cache: Cache<PlayerPage>, q1: string, q2: string, limit: int, now1: int, now2: int,
                                up1: SummaryResponse, up2: SummaryResponse)
    returns (p1: PlayerPage, p2: PlayerPage, requested1: bool, requested2: bool)
    requires cache.entries == map[]
    requires Lower(q1) == Lower(q2) && now1 <= now2 < now1 + SearchTtl
    modifies cache
    ensures requested1 && !requested2 && p2 == p1
  {
    p1, requested1 := SearchPlayers(cache, q1, limit, now1, up1);
    SearchKeyIgnoresCase(q1, q2, limit);
    p2, requested2 := SearchPlayers(cache, q2, limit, now2, up2);
  }
}
