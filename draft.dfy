/**
 * The draft-pick table and its controller (app/Http/Controllers/PoolPlayerController.php):
 * adding a pick, removing one, and searching players with their availability.
 */
module Draft {
  import opened Wrappers
  import opened PhpStrings
  import opened RuleSettings
  import Pools
  import NHLApi

  /** One row of pool_players. */
  datatype Pick = Pick(
    id: int, poolId: int, userId: int, nhlPlayerId: int, playerName: string, position: string,
    teamAbbrev: string, teamName: string, headshotUrl: Option<string>, draftOrder: int)

  /**
   * The body of a pick request; every field may be missing. `headshot_url`
   * is nullable, so it has three states: None (the key is absent), Some(None)
   * (null) and Some(Some(url)).
   */
  datatype PickRequest = PickRequest(
    nhlPlayerId: Option<int>, playerName: Option<string>, position: Option<string>,
    teamAbbrev: Option<string>, teamName: Option<string>, headshotUrl: Option<Option<string>>)

  /** A required string is present and non-empty; `headshot_url` may be null. */
  predicate Required(s: Option<string>) {
    s.Some? && s.value != ""
  }

  predicate WellFormed(req: PickRequest) {
    req.nhlPlayerId.Some? && Required(req.playerName) && Required(req.position)
    && Required(req.teamAbbrev) && Required(req.teamName)
  }

  // ---------------------------------------------------------------------------
  // Queries over the pick table
  // ---------------------------------------------------------------------------

  predicate Selects(p: Pick, poolId: int, playerId: int) {
    p.poolId == poolId && p.nhlPlayerId == playerId
  }

  /** The pick of this player in this pool, as an index, if any. */
  function FindSelection(picks: seq<Pick>, poolId: int, playerId: int): (r: Option<nat>)
    ensures r.None? <==> forall i :: 0 <= i < |picks| ==> !Selects(picks[i], poolId, playerId)
    ensures r.Some? ==> r.value < |picks| && Selects(picks[r.value], poolId, playerId)
    decreases |picks|
  {
    if picks == [] then None
    else if Selects(picks[0], poolId, playerId) then Some(0)
    else
      match FindSelection(picks[1..], poolId, playerId)
      case None => None
      case Some(i) => Some(i + 1)
  }

  /** Whether the player is already drafted in the pool (the availability test of `search`). */
  predicate Drafted(picks: seq<Pick>, poolId: int, playerId: int)
    ensures Drafted(picks, poolId, playerId) <==> FindSelection(picks, poolId, playerId).Some?
  {
    exists i :: 0 <= i < |picks| && Selects(picks[i], poolId, playerId)
  }

  predicate Holds(p: Pick, poolId: int, userId: int, position: string) {
    p.poolId == poolId && p.userId == userId && p.position == position
  }

  /** How many picks of this pool, this user and this position there are. */
  function CountAt(picks: seq<Pick>, poolId: int, userId: int, position: string): (n: nat)
    ensures n <= |picks|
    decreases |picks|
  {
    if picks == [] then 0
    else (if Holds(picks[0], poolId, userId, position) then 1 else 0) + CountAt(picks[1..], poolId, userId, position)
  }

  lemma {:induction false} CountAtConcat(a: seq<Pick>, b: seq<Pick>, poolId: int, userId: int, position: string)
    ensures CountAt(a + b, poolId, userId, position) == CountAt(a, poolId, userId, position) + CountAt(b, poolId, userId, position)
    decreases |a|
  {
    if a == [] {
      assert a + b == b;
    } else {
      assert (a + b)[1..] == a[1..] + b;
      CountAtConcat(a[1..], b, poolId, userId, position);
    }
  }

  /** `max('draft_order')` over the pool's picks; None (SQL null) when the pool has none. */
  function MaxOrder(picks: seq<Pick>, poolId: int): (r: Option<int>)
    ensures r.None? <==> forall i :: 0 <= i < |picks| ==> picks[i].poolId != poolId
    ensures r.Some? ==> forall i :: 0 <= i < |picks| && picks[i].poolId == poolId ==> picks[i].draftOrder <= r.value
    ensures r.Some? ==> exists i :: 0 <= i < |picks| && picks[i].poolId == poolId && picks[i].draftOrder == r.value
    decreases |picks|
  {
    if picks == [] then None
    else
      var rest := MaxOrder(picks[1..], poolId);
      assert forall i :: 1 <= i < |picks| ==> picks[i] == picks[1..][i - 1];
      if picks[0].poolId != poolId then rest
      else if rest.Some? && rest.value >= picks[0].draftOrder then
        assert exists j :: 0 <= j < |picks[1..]| && picks[1..][j].poolId == poolId && picks[1..][j].draftOrder == rest.value;
        var j :| 0 <= j < |picks[1..]| && picks[1..][j].poolId == poolId && picks[1..][j].draftOrder == rest.value;
        assert picks[j + 1] == picks[1..][j];
        rest
      else Some(picks[0].draftOrder)
  }

  /** The next draft order: max + 1, where a null max counts as 0, so 1 in an empty pool. */
  function NextOrder(picks: seq<Pick>, poolId: int): (n: int)
    ensures forall i :: 0 <= i < |picks| && picks[i].poolId == poolId ==> picks[i].draftOrder < n
    ensures (forall i :: 0 <= i < |picks| ==> picks[i].poolId != poolId) ==> n == 1
    ensures (exists i :: 0 <= i < |picks| && picks[i].poolId == poolId) ==>
              exists i :: 0 <= i < |picks| && picks[i].poolId == poolId && picks[i].draftOrder == n - 1
  {
    match MaxOrder(picks, poolId)
    case None => 1
    case Some(m) => m + 1
  }

  /**
   * The per-position ceiling for a position: only when `by_position` is
   * non-empty, names the position and gives it a non-null max above 0.
   */
  function PositionCeiling(limits: PlayerLimits, position: string): (c: Option<int>)
    ensures c.Some? ==> c.value > 0
    ensures c.Some? <==> limits.byPosition.Some? && position in limits.byPosition.value
                         && limits.byPosition.value[position].max.Some? && limits.byPosition.value[position].max.value > 0
    ensures c.Some? ==> c == limits.byPosition.value[position].max
  {
    var byPosition := limits.byPosition.GetOr(map[]);
    if byPosition != map[] && position in byPosition then
      var max := byPosition[position].max;
      if max.Some? && max.value > 0 then max else None
    else None
  }

  /** No ceiling when `by_position` is missing, omits the position, or has a null or zero max. */
  lemma NoCeilingCases(limits: PlayerLimits, position: string)
    ensures limits.byPosition.None? ==> PositionCeiling(limits, position).None?
    ensures limits.byPosition.Some? && position !in limits.byPosition.value ==> PositionCeiling(limits, position).None?
    ensures (limits.byPosition.Some? && position in limits.byPosition.value
             && limits.byPosition.value[position].max in {None, Some(0)}) ==> PositionCeiling(limits, position).None?
  {
  }

  /** No two picks of a pool name the same player (the unique (pool_id, nhl_player_id) index). */
  ghost predicate UniqueSelections(picks: seq<Pick>) {
    forall i, j :: 0 <= i < j < |picks| ==> !Selects(picks[j], picks[i].poolId, picks[i].nhlPlayerId)
  }

  /** Row ids are positive, distinct and below the next id; selections are unique per pool. */
  ghost predicate TableInvariant(picks: seq<Pick>, nextId: int) {
    && nextId >= 1
    && (forall i :: 0 <= i < |picks| ==> 1 <= picks[i].id < nextId)
    && (forall i, j :: 0 <= i < j < |picks| ==> picks[i].id != picks[j].id)
    && UniqueSelections(picks)
  }

  /** Appending a pick with the next id, for a player not yet in its pool, keeps the invariant. */
  lemma AppendKeepsInvariant(picks: seq<Pick>, nextId: int, p: Pick)
    requires TableInvariant(picks, nextId)
    requires p.id == nextId && !Drafted(picks, p.poolId, p.nhlPlayerId)
    ensures TableInvariant(picks + [p], nextId + 1)
  {
    var r := picks + [p];
    forall i, j | 0 <= i < j < |r|
      ensures !Selects(r[j], r[i].poolId, r[i].nhlPlayerId)
    {
      if j == |picks| {
        assert r[i] == picks[i];
      }
    }
  }

  /** Removing a pick keeps the invariant. */
  lemma RemoveKeepsInvariant(picks: seq<Pick>, nextId: int, i: nat)
    requires TableInvariant(picks, nextId) && i < |picks|
    ensures TableInvariant(RemoveAt(picks, i), nextId)
  {
    var r := RemoveAt(picks, i);
    assert forall k :: 0 <= k < |r| ==> r[k] == picks[if k < i then k else k + 1];
  }

  function RemoveAt(picks: seq<Pick>, i: nat): (r: seq<Pick>)
    requires i < |picks|
    ensures |r| == |picks| - 1
  {
    picks[..i] + picks[i + 1..]
  }

  /** Removing a pick frees its player: the pool no longer has a selection of it. */
  lemma RemovalFreesPlayer(picks: seq<Pick>, i: nat)
    requires i < |picks| && UniqueSelections(picks)
    ensures !Drafted(RemoveAt(picks, i), picks[i].poolId, picks[i].nhlPlayerId)
  {
    var r := RemoveAt(picks, i);
    forall k | 0 <= k < |r|
      ensures !Selects(r[k], picks[i].poolId, picks[i].nhlPlayerId)
    {
      if k < i {
        assert r[k] == picks[k];
      } else {
        assert r[k] == picks[k + 1];
      }
    }
  }

  /** Removing a pick lowers its owner's count at its position by one and leaves every other count alone. */
  lemma RemovalCounts(picks: seq<Pick>, i: nat, poolId: int, userId: int, position: string)
    requires i < |picks|
    ensures CountAt(RemoveAt(picks, i), poolId, userId, position)
            == CountAt(picks, poolId, userId, position) - (if Holds(picks[i], poolId, userId, position) then 1 else 0)
  {
    assert picks == picks[..i] + ([picks[i]] + picks[i + 1..]);
    CountAtConcat(picks[..i], [picks[i]] + picks[i + 1..], poolId, userId, position);
    CountAtConcat([picks[i]], picks[i + 1..], poolId, userId, position);
    CountAtConcat(picks[..i], picks[i + 1..], poolId, userId, position);
    assert ([picks[i]])[1..] == [];
  }

  /** The index of the pick with this id, if any. */
  function IndexOfId(picks: seq<Pick>, id: int): (r: Option<nat>)
    ensures r.None? <==> forall i :: 0 <= i < |picks| ==> picks[i].id != id
    ensures r.Some? ==> r.value < |picks| && picks[r.value].id == id
    decreases |picks|
  {
    if picks == [] then None
    else if picks[0].id == id then Some(0)
    else
      match IndexOfId(picks[1..], id)
      case None => None
      case Some(i) => Some(i + 1)
  }

  /** The requester already holds as many picks at this position as its ceiling allows. */
  predicate AtCeiling(limits: PlayerLimits, picks: seq<Pick>, poolId: int, userId: int, position: string) {
    PositionCeiling(limits, position).Some? && CountAt(picks, poolId, userId, position) >= PositionCeiling(limits, position).value
  }

  // ---------------------------------------------------------------------------
  // The controller
  // ---------------------------------------------------------------------------

  datatype StoreOutcome =
    | Invalid                                            // validation failed (422)
    | AlreadySelected(selectedBy: string)                // the player is taken in this pool (422)
    | PositionLimitReached(limit: int, position: string) // the requester is at the ceiling (422)
    | Failed                                             // an exception inside the `try` (500)
    | Added(pick: Pick)

  datatype DestroyOutcome =
    | PickMissing                 // no such pick (404)
    | NotInThisPool               // the pick belongs to another pool (403)
    | NotYours                    // the pick belongs to another user (403)
    | Removed(nhlPlayerId: int)

  datatype SearchHit = SearchHit(player: NHLApi.PlayerSummary, gamesInPool: nat,
                                 isAvailable: bool, selectedBy: Option<string>)

  /** Shortest query for which `search` asks the statistics service. */
  const MinQueryLength: nat := 2
  const SearchLimit: int := 50

  /** The availability fields `search` adds to one result, given the picks. */
  function Hit(picks: seq<Pick>, poolId: int, player: NHLApi.PlayerSummary, games: nat, userName: int -> string): (h: SearchHit)
    ensures h.player == player && h.gamesInPool == games
    ensures h.isAvailable <==> !Drafted(picks, poolId, player.id)
    ensures h.selectedBy.Some? <==> !h.isAvailable
    ensures h.selectedBy.Some? ==>
              exists i :: 0 <= i < |picks| && Selects(picks[i], poolId, player.id) && h.selectedBy.value == userName(picks[i].userId)
    ensures UniqueSelections(picks) ==>
              forall i :: 0 <= i < |picks| && Selects(picks[i], poolId, player.id) ==> h.selectedBy == Some(userName(picks[i].userId))
  {
    match FindSelection(picks, poolId, player.id)
    case None => SearchHit(player, games, true, None)
    case Some(i) => SearchHit(player, games, false, Some(userName(picks[i].userId)))
  }

  /** The picks of every pool, with the next row id. */
  class PickTable {
    var picks: seq<Pick>
    var nextId: int

    ghost predicate Valid()
      reads this
    {
      TableInvariant(picks, nextId)
    }

    constructor ()
      ensures Valid() && picks == [] && nextId == 1
    {
      picks := [];
      nextId := 1;
    }

    /**
     * `store`: validate, refuse a player already drafted in the pool (naming
     * its drafter), refuse a pick over the requester's position ceiling,
     * otherwise append one pick with the next draft order. Reading the
     * validated `headshot_url` when the key was not sent raises inside the
     * `try`, so that request fails with a 500 and nothing is inserted.
     */
    method Store(poolId: int, requester: int, req: PickRequest, rs: RuleSetting, userName: int -> string)
      returns (out: StoreOutcome)
      requires Valid()
      modifies this`picks, this`nextId
      ensures Valid()
      ensures !WellFormed(req) ==> out == Invalid
      ensures WellFormed(req) && FindSelection(old(picks), poolId, req.nhlPlayerId.value).Some? ==>
                out == AlreadySelected(userName(old(picks)[FindSelection(old(picks), poolId, req.nhlPlayerId.value).value].userId))
      ensures WellFormed(req) && FindSelection(old(picks), poolId, req.nhlPlayerId.value).None?
              && AtCeiling(GetPlayerLimits(rs), old(picks), poolId, requester, req.position.value)
              ==> out == PositionLimitReached(PositionCeiling(GetPlayerLimits(rs), req.position.value).value, req.position.value)
      ensures WellFormed(req) && FindSelection(old(picks), poolId, req.nhlPlayerId.value).None?
              && !AtCeiling(GetPlayerLimits(rs), old(picks), poolId, requester, req.position.value)
              ==> (out.Added? <==> req.headshotUrl.Some?) && (out == Failed <==> req.headshotUrl.None?)
      ensures !out.Added? ==> picks == old(picks) && nextId == old(nextId)
      ensures out.Added? ==>
                && WellFormed(req)
                && !Drafted(old(picks), poolId, req.nhlPlayerId.value)
                && out.pick == Pick(old(nextId), poolId, requester, req.nhlPlayerId.value, req.playerName.value,
                                    req.position.value, req.teamAbbrev.value, req.teamName.value, req.headshotUrl.value,
                                    NextOrder(old(picks), poolId))
                && picks == old(picks) + [out.pick]
                && nextId == old(nextId) + 1
      ensures out.Added? && PositionCeiling(GetPlayerLimits(rs), req.position.value).Some? ==>
                CountAt(picks, poolId, requester, req.position.value) <= PositionCeiling(GetPlayerLimits(rs), req.position.value).value
    {
      if !WellFormed(req) {
        return Invalid;
      }
      var playerId := req.nhlPlayerId.value;
      var position := req.position.value;
      var existing := FindSelection(picks, poolId, playerId);
      if existing.Some? {
        return AlreadySelected(userName(picks[existing.value].userId));
      }
      var ceiling := PositionCeiling(GetPlayerLimits(rs), position);
      if ceiling.Some? && CountAt(picks, poolId, requester, position) >= ceiling.value {
        return PositionLimitReached(ceiling.value, position);
      }
      if req.headshotUrl.None? {
        return Failed;
      }
      var pick := Pick(nextId, poolId, requester, playerId, req.playerName.value, position,
                       req.teamAbbrev.value, req.teamName.value, req.headshotUrl.value, NextOrder(picks, poolId));
      CountAtConcat(picks, [pick], poolId, requester, position);
      AppendKeepsInvariant(picks, nextId, pick);
      picks := picks + [pick];
      nextId := nextId + 1;
      out := Added(pick);
    }

    /**
     * `destroy`: the pick must belong to this pool and to the actor; then only
     * that pick goes. Nothing here depends on the pool's status.
     */
    method Destroy(poolId: int, pickId: int, actor: int) returns (out: DestroyOutcome)
      requires Valid()
      modifies this`picks
      ensures Valid()
      ensures IndexOfId(old(picks), pickId).None? ==> out == PickMissing
      ensures IndexOfId(old(picks), pickId).Some? ==>
                var p := old(picks)[IndexOfId(old(picks), pickId).value];
                out == (if p.poolId != poolId then NotInThisPool
                        else if p.userId != actor then NotYours
                        else Removed(p.nhlPlayerId))
      ensures !out.Removed? ==> picks == old(picks)
      ensures out.Removed? ==> picks == RemoveAt(old(picks), IndexOfId(old(picks), pickId).value)
    {
      var found := IndexOfId(picks, pickId);
      if found.None? {
        return PickMissing;
      }
      var i := found.value;
      var p := picks[i];
      if p.poolId != poolId {
        return NotInThisPool;
      }
      if p.userId != actor {
        return NotYours;
      }
      RemoveKeepsInvariant(picks, nextId, i);
      picks := RemoveAt(picks, i);
      out := Removed(p.nhlPlayerId);
    }

    /**
     * `search`: a query shorter than two characters answers an empty list
     * without asking the service. Otherwise each result of the (cached) name
     * search is enriched with its team's games in the scoring window (none
     * looked up for a player without a team) and its availability.
     */
    method Search(query: Option<string>, pool: Pools.Pool, formatDay: Pools.Day -> string, now: int,
                  searchCache: NHLApi.Cache<NHLApi.PlayerPage>, gamesCache: NHLApi.Cache<nat>,
                  upstream: NHLApi.SummaryResponse, schedules: string -> NHLApi.ScheduleResponse,
                  userName: int -> string)
      returns (hits: seq<SearchHit>)
      modifies searchCache, gamesCache
      ensures |query.GetOr("")| < MinQueryLength ==>
                hits == [] && searchCache.entries == old(searchCache.entries) && gamesCache.entries == old(gamesCache.entries)
      ensures |query.GetOr("")| >= MinQueryLength ==>
                var cached := old(searchCache.Lookup(NHLApi.SearchKey(query.GetOr(""), SearchLimit), now));
                var page := if cached.Some? then cached.value else NHLApi.PlayerPageOf(upstream);
                |hits| == |page.data| && forall i :: 0 <= i < |hits| ==> hits[i].player == page.data[i]
      ensures forall i :: 0 <= i < |hits| ==>
                (hits[i].isAvailable <==> !Drafted(picks, pool.id, hits[i].player.id))
                && (hits[i].selectedBy.Some? <==> !hits[i].isAvailable)
                && (!Truthy(hits[i].player.teamAbbrev) ==> hits[i].gamesInPool == 0)
      ensures forall i :: 0 <= i < |hits| ==> hits[i] == Hit(picks, pool.id, hits[i].player, hits[i].gamesInPool, userName)
      ensures forall i :: 0 <= i < |hits| && Truthy(hits[i].player.teamAbbrev) ==>
                hits[i].gamesInPool
                == NHLApi.CachedTeamGames(old(gamesCache.entries), hits[i].player.teamAbbrev,
                                          formatDay(Pools.WindowFirstDay(pool.startDate)), formatDay(pool.endDate),
                                          now, schedules(hits[i].player.teamAbbrev))
    {
      var q := query.GetOr("");
      if |q| < MinQueryLength {
        return [];
      }
      var page, _ := NHLApi.SearchPlayers(searchCache, q, SearchLimit, now, upstream);
      var windowStart := formatDay(Pools.WindowFirstDay(pool.startDate));
      var windowEnd := formatDay(pool.endDate);
      hits := EnrichAll(pool.id, page.data, windowStart, windowEnd, now, gamesCache, schedules, userName);
    }

    /** The enrichment loop of `search`, over the results in order. */
    method EnrichAll(poolId: int, players: seq<NHLApi.PlayerSummary>, windowStart: string, windowEnd: string, now: int,
                     gamesCache: NHLApi.Cache<nat>, schedules: string -> NHLApi.ScheduleResponse, userName: int -> string)
      returns (hits: seq<SearchHit>)
      modifies gamesCache
      ensures |hits| == |players|
      ensures forall i :: 0 <= i < |hits| ==>
                hits[i].player == players[i] && hits[i] == Hit(picks, poolId, players[i], hits[i].gamesInPool, userName)
      ensures forall i :: 0 <= i < |hits| && !Truthy(players[i].teamAbbrev) ==> hits[i].gamesInPool == 0
      ensures forall i :: 0 <= i < |hits| && Truthy(players[i].teamAbbrev) ==>
                hits[i].gamesInPool
                == NHLApi.CachedTeamGames(old(gamesCache.entries), players[i].teamAbbrev, windowStart, windowEnd,
                                          now, schedules(players[i].teamAbbrev))
    {
      ghost var origin := gamesCache.entries;
      hits := [];
      for i := 0 to |players|
        invariant |hits| == i
        invariant forall k :: 0 <= k < i ==>
                    hits[k].player == players[k] && hits[k] == Hit(picks, poolId, players[k], hits[k].gamesInPool, userName)
        invariant forall k :: 0 <= k < i && !Truthy(players[k].teamAbbrev) ==> hits[k].gamesInPool == 0
        invariant forall k :: 0 <= k < i && Truthy(players[k].teamAbbrev) ==>
                    hits[k].gamesInPool
                    == NHLApi.CachedTeamGames(origin, players[k].teamAbbrev, windowStart, windowEnd,
                                              now, schedules(players[k].teamAbbrev))
        invariant NHLApi.SameAnswers(gamesCache.entries, origin, windowStart, windowEnd, now, schedules)
      {
        var hit := Enrich(poolId, players[i], windowStart, windowEnd, now, gamesCache, schedules, userName, origin);
        hits := hits + [hit];
      }
    }

    /**
     * One result of `search`: its team's games in the window (0 without a
     * team) through the cache, and its availability. The cache may gain an
     * entry, but it answers every team as before.
     */
    method Enrich(poolId: int, player: NHLApi.PlayerSummary, windowStart: string, windowEnd: string, now: int,
                  gamesCache: NHLApi.Cache<nat>, schedules: string -> NHLApi.ScheduleResponse, userName: int -> string,
                  ghost origin: map<string, NHLApi.Entry<nat>>)
      returns (hit: SearchHit)
      requires NHLApi.SameAnswers(gamesCache.entries, origin, windowStart, windowEnd, now, schedules)
      modifies gamesCache
      ensures NHLApi.SameAnswers(gamesCache.entries, origin, windowStart, windowEnd, now, schedules)
      ensures hit == Hit(picks, poolId, player, hit.gamesInPool, userName) && hit.player == player
      ensures !Truthy(player.teamAbbrev) ==> hit.gamesInPool == 0
      ensures Truthy(player.teamAbbrev) ==>
                hit.gamesInPool == NHLApi.CachedTeamGames(origin, player.teamAbbrev, windowStart, windowEnd, now,
                                                          schedules(player.teamAbbrev))
    {
      var games: nat := 0;
      if Truthy(player.teamAbbrev) {
        var requested;
        ghost var before := gamesCache.entries;
        var key := NHLApi.TeamGamesKey(player.teamAbbrev, windowStart, windowEnd);
        if !(key in before && now < before[key].expiresAt) {
          NHLApi.MissKeepsAnswers(before, player.teamAbbrev, windowStart, windowEnd, now, schedules);
        }
        games, requested := NHLApi.GetTeamGamesInDateRange(gamesCache, player.teamAbbrev, windowStart, windowEnd, now,
                                                           schedules(player.teamAbbrev));
      }
      hit := Hit(picks, poolId, player, games, userName);
    }
  }

  /** A new pick's draft order is above every draft order already in its pool. */
  lemma NextOrderIsFresh(picks: seq<Pick>, poolId: int, p: Pick)
    requires p in picks && p.poolId == poolId
    ensures p.draftOrder < NextOrder(picks, poolId)
  {
  }

  /** Adding a pick raises exactly its owner's count at its position, by one. */
  lemma AddedPickCounts(picks: seq<Pick>, p: Pick, poolId: int, userId: int, position: string)
    ensures CountAt(picks + [p], poolId, userId, position)
            == CountAt(picks, poolId, userId, position) + (if Holds(p, poolId, userId, position) then 1 else 0)
  {
    CountAtConcat(picks, [p], poolId, userId, position);
    assert ([p])[1..] == [];
  }
}
