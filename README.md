# poolHockey core in Dafny

A model of the core of poolHockey, a Laravel application for NHL fantasy
pools. A pool runs through three phases: selection, then active, then
finished. Participants draft NHL players into the pool. Each drafted
player earns points from real NHL statistics under the pool's rule
setting, and participants are ranked by their total points. The model
covers these parts:

- **Pool lifecycle** (`pool.dfy`, module `Pools`). Status is computed
  from day numbers. `Pool` is a class whose `status` and `pool_user`
  pivot rows (`members`, a sequence of user and selection-completed
  time, one row per attached id) change in place.
- **Rule settings** (`rule_setting.dfy`, `RuleSettings`). Scoring rules
  come from a structured `rules` blob, with a fallback to the legacy
  per-stat columns. Player limits fall back the same way. The
  rule-settings table is a class.
- **Rules input** (`rules_input.dfy`, `RulesInput`). The rules array
  submitted to pool creation and to the admin forms: its validation, and
  its conversion into the stored blob. Laravel's `validated()` rebuilds a
  nested array from its rules, so the blob holds only the keys a rule
  names: any other submitted key is dropped.
- **Pool creation** (`pool_controller.dfy`, `PoolCreation`). Form
  validation, choosing or creating the rule setting, creating the pool,
  and attaching its participants.
- **Draft table** (`draft.dfy`, `Draft`). `PickTable` is a class over a
  sequence of picks. Its methods are `Store` (refuses duplicates, checks
  position ceilings, sets `draft_order = max + 1`), `Destroy` (ownership
  guards) and `Search` (short-query cutoff, availability flag).
- **Pool page and dashboard** (`standings.dfy`, `PoolPage`). Covers:
  - the viewer's phase;
  - the scoring window;
  - the goalie and skater point formulas;
  - participant totals, accumulated by a loop;
  - the stable descending sorts (`sorting.dfy`, `Sorting`);
  - per-position counts;
  - `can_delete`;
  - the dashboard's role-based filter and the in-place status refresh.
- **Statistics service** (`nhl_api.dfy`, `NHLApi`). Covers:
  - per-game summation over game records;
  - zero results on failure;
  - the dated-games filter;
  - name splitting and the team tables;
  - `Cache::remember`, modelled as a class over a key → (value, expiry)
    map.

  PHP's `explode`, `implode`, `strtolower`, `substr`, string `<=` and
  integer rendering are in `php_strings.dfy` (`PhpStrings`).
- **Admin area**:
  - `EnsureUserIsAdmin` (`admin_gate.dfy`, `AdminGate`);
  - user management (`user_admin.dfy`, `UserAdmin`, with the directory as
    a class);
  - rule-setting management (`rule_setting_admin.dfy`,
    `RuleSettingAdmin`).

  Users are records in `accounts.dfy` (`Accounts`).

Dates are day numbers in the pool and page logic. `addDay` is `+ 1`. The
statistics service works on the `Y-m-d` strings the code actually
compares, and a `formatDay` parameter turns day numbers into those
strings. The clock (`now()`), HTTP responses and the NHL schedule are
parameters.

Where the code and the documentation disagree, the model follows the code:

- The pool page scores with the legacy columns `points_per_goal`,
  `points_per_assist`, `points_per_victory` and `points_per_shutout`. It
  never reads `getScoringRules()`. A pool created with custom rules
  therefore scores with the column defaults 2/1/2/3, not with its own
  rules (`PoolPage.StructuredRulesIgnored`).
- `Cache::remember` stores failure results (`[]`, zeros) like any other
  value. There is no single-flight: each miss makes its own request.
- Removing a pick has no lifecycle check. Only the pool and the owner are
  checked.
- Adding a pick checks the per-position ceilings but not `max_per_user`.
- The pool page never sees a completed selection: `Pool::users()` loads
  no `selection_completed_at`, so a viewer stays in selection until the
  draft day is past (`PoolPage.ViewerStatus`; see "## Findings").
- Pool creation does not check that the custom setting's name is unique.
  Two such settings can then share a name, and neither can be saved under
  that name by the admin form (`RuleSettingAdmin.SharedNameBlocksEdit`).

## Model

| member | source | states |
|---|---|---|
| Pools.CalculateStatus | app/Models/Pool.php:78-99 | finished exactly when today > end; active exactly when start < today ≤ end; selection exactly when today ≤ start and today ≤ end; the final fallback is unreachable |
| Pools.DraftDayIsSelection | app/Models/Pool.php:73-76 | the start (draft) day is selection, and the next day is active when it is not after the end |
| Pools.StatusMonotone | app/Models/Pool.php:78-99 | for d1 ≤ d2 the status rank never decreases (selection < active < finished) |
| Pools.FinishedIsFinal | app/Models/Pool.php:83-85 | once finished, a pool is finished on every later day |
| Pools.WindowFirstDay | routes/web.php:107-109 | the scoring window starts the day after the draft day (`addDay`) |
| Pools.WindowIsActivePhase | routes/web.php:107-109 | a day lies in the scoring window [start+1, end] exactly when the pool is active on it |
| Pools.MemberIds | app/Http/Controllers/PoolController.php:102 | a user is a member exactly when some pivot row names them (`users->contains`) |
| Pools.FirstRowOf | routes/web.php:97 | the first pivot row of the user, None exactly when the user has no row |
| Pools.Joined | app/Http/Controllers/PoolController.php:92 | the rows `attach` inserts: as many as the listed ids, row i for id i, none completed |
| Pools.JoinedMembers | app/Http/Controllers/PoolController.php:92 | the attached members are exactly the listed ids, and each user holds one row per occurrence of its id in the list |
| Pools.RepeatedIdTwoRows | app/Http/Controllers/PoolController.php:45-46 | `user_ids` [7, 7] passes validation and attaches two pivot rows for user 7, who is one member |
| Pools.FilterUser | app/Http/Controllers/PoolController.php:92 | exactly the pivot rows of one user |
| Pools.Completed | app/Http/Controllers/PoolController.php:108-110 | `updateExistingPivot`: same number of rows, every row of the user stamped with now, every other row unchanged |
| Pools.CompletedFirstRow | app/Http/Controllers/PoolController.php:108-110 | after stamping a member, the members are the same, the member's first row is the same row and is completed, and other users' rows are unchanged |
| Pools.Pool.constructor | app/Http/Controllers/PoolController.php:80-87 | a new pool has the given fields, status selection and no participants |
| Pools.Pool.UpdateStatus | app/Models/Pool.php:104-107 | stores the status computed for today and changes nothing else; an already current status is left as it is |
| Pools.Pool.Attach | app/Http/Controllers/PoolController.php:92 | the existing pivot rows are kept and `Joined` of the listed ids is appended: one uncompleted row per listed id, a repeated id once per occurrence |
| Pools.Pool.CompleteSelection | app/Http/Controllers/PoolController.php:100-113 | refuses exactly a user with no pivot row, with nothing changed; for a member, stamps every row of that member and no other row |
| RuleSettings.GetScoringRules | app/Models/RuleSetting.php:55-81 | with a `scoring_rules` key, returns that list verbatim; otherwise each entry comes from a truthy legacy column, every truthy column appears, entries are in goal/assist/shutout/victory order, and the list is empty exactly when all four are zero or null |
| RuleSettings.LegacyList | app/Models/RuleSetting.php:62-80 | definition of the legacy fallback: goal, assist, shutout, victory entries for the truthy columns, in that order; its properties are the `LegacyList…` lemmas below |
| RuleSettings.LegacyListSound | app/Models/RuleSetting.php:62-80 | every fallback entry is the entry of some truthy column |
| RuleSettings.LegacyListComplete | app/Models/RuleSetting.php:62-80 | every truthy column contributes its entry |
| RuleSettings.LegacyListOrdered | app/Models/RuleSetting.php:62-80 | fallback entries are strictly increasing in goal < assist < shutout < victory order |
| RuleSettings.LegacyListEmpty | app/Models/RuleSetting.php:62-80 | the fallback list is empty exactly when all four columns are zero or null |
| RuleSettings.LegacyListShape | app/Models/RuleSetting.php:62-80 | the four facts above together, as GetScoringRules uses them |
| RuleSettings.LegacyListHasNoDefeatOrOvertime | app/Models/RuleSetting.php:62-80 | no fallback entry has a type other than goal, assist, shutout or victory, so defeat and overtime never appear |
| RuleSettings.GetPlayerLimits | app/Models/RuleSetting.php:86-97 | `player_limits` verbatim when set; otherwise `max_players_per_user` or 20, and `position_limits` or the empty map |
| RuleSettings.UsesDynamicRules | app/Models/RuleSetting.php:102-105 | true exactly when the blob is non-empty; implied by structured scoring |
| RuleSettings.DynamicFlagDoesNotImplyDynamicScoring | app/Models/RuleSetting.php:57 | a blob with only player limits reports dynamic rules, yet scoring still falls back to the columns |
| RuleSettings.RuleSettingTable.Create | app/Http/Controllers/Admin/RuleSettingController.php:46-51 | inserts the row under a fresh positive id and changes no other row |
| RulesInput.ValidRule | app/Http/Controllers/PoolController.php:37-39 | definition: a scoring rule has a type, a label and integer points of at least 0 |
| RulesInput.ValidMaxPerUser | app/Http/Controllers/PoolController.php:41 | definition: `max_per_user` is an integer from 1 to 50 |
| RulesInput.ValidBound | app/Http/Controllers/PoolController.php:43-44 | definition: a position bound is null or an integer from 0 to 20 |
| RulesInput.Errors | app/Http/Controllers/PoolController.php:36-44 | each rules key fails exactly when its rule is broken: at least one scoring rule, each with type, label and points ≥ 0; `player_limits` present; `max_per_user` in 1..50; and, when bounds are checked, each `by_position` min and max null or in 0..20 |
| RulesInput.ToBlob | app/Http/Controllers/PoolController.php:62-68 | the stored blob keeps exactly the validated keys: every scoring rule with its submitted type, label and points, in order; `max_per_user`; `by_position` with the same positions and bounds; every key no rule names is dropped |
| RulesInput.StoredSetting | app/Http/Controllers/Admin/RuleSettingController.php:46-51 | a created setting is custom and not default, holds the submitted rules, and keeps truthy legacy column defaults |
| RulesInput.BoundsOnlyAddErrors | app/Http/Controllers/Admin/RuleSettingController.php:39 | the admin forms check a subset of the pool-creation rules, so a valid pool-creation array is a valid admin array |
| RulesInput.StoredRulesAreSubmittedRules | app/Http/Controllers/Admin/RuleSettingController.php:33-38 | a setting stored from a valid array scores with exactly the submitted rules (same length ≥ 1, same type, label and points ≥ 0), and its player limit is the submitted `max_per_user` in 1..50 |
| PoolCreation.HasCustomRules | app/Http/Controllers/PoolController.php:35-44 | definition: `custom_rules` was sent and is a non-empty array, so the `required_with:custom_rules` rules apply; `EmptyCustomRulesAreIgnored` and `Store` state its effect |
| PoolCreation.FieldErrors | app/Http/Controllers/PoolController.php:31-34 | the single-value keys: name required and ≤ 255, start date required, end date required and after a valid start date, existing rule-setting id, `user_ids` a non-empty array |
| PoolCreation.Errors | app/Http/Controllers/PoolController.php:30-46 | each form key fails exactly when its rule is broken: name, start date, end date present and after the start date when that one is valid (else `after` passes), existing rule-setting id, custom rules only when non-empty, at least one user, each user existing |
| PoolCreation.MissingStartDateReportedAlone | app/Http/Controllers/PoolController.php:32-33 | a form whose only fault is a missing start date has exactly the `start_date` error |
| PoolCreation.CustomSetting | app/Http/Controllers/PoolController.php:63-68 | the custom setting is named "<pool name> - Règles personnalisées", template custom, not default, with the submitted rules |
| PoolCreation.Store | app/Http/Controllers/PoolController.php:28-95 | an error-free form with custom rules or a `rule_setting_id` always creates the pool; invalid forms are rejected with all errors and nothing written; non-empty custom rules create a setting that overrides `rule_setting_id`; no id at all gives the `rule_setting_id` error and nothing is written; a created pool is owned by the requester, starts strictly before it ends, has today's status and one uncompleted pivot row per listed id, all of existing users |
| PoolCreation.Open | app/Http/Controllers/PoolController.php:80-92 | create, `updateStatus`, `attach`: the pool has today's status and exactly the rows `Joined` of the listed ids |
| PoolCreation.AcceptedForm | app/Http/Controllers/PoolController.php:30-46 | an error-free form has a usable name, start < end, an existing setting when one is named, at least one participant, only known users, and valid custom rules |
| PoolCreation.EmptyCustomRulesAreIgnored | app/Http/Controllers/PoolController.php:62 | an empty `custom_rules` array validates and resolves exactly as an absent one |
| RuleSettingAdmin.NameInUse | app/Http/Controllers/Admin/RuleSettingController.php:69 | definition of `unique:rule_settings,name[,except]`: another row than the excepted one has the name; `SharedNameBlocksEdit` states its effect |
| RuleSettingAdmin.Errors | app/Http/Controllers/Admin/RuleSettingController.php:30-44 | each key fails exactly when its rule is broken: name required, ≤ 255 and not used by another row; `rules` required and its inner keys valid |
| RuleSettingAdmin.AcceptedForm | app/Http/Controllers/Admin/RuleSettingController.php:68-82 | an error-free form has a fresh name and valid rules |
| RuleSettingAdmin.Store | app/Http/Controllers/Admin/RuleSettingController.php:28-54 | a valid form adds one custom, non-default setting under a fresh id; an invalid one is rejected with all errors and the table is unchanged |
| RuleSettingAdmin.Update | app/Http/Controllers/Admin/RuleSettingController.php:59-90 | unknown id: not found; default: refused under `update` before validation; otherwise only that row's name and rules change |
| RuleSettingAdmin.Destroy | app/Http/Controllers/Admin/RuleSettingController.php:95-114 | the default setting and a setting any pool uses are refused under `delete`; otherwise exactly that row is removed |
| RuleSettingAdmin.StoreThenDestroy | app/Http/Controllers/Admin/RuleSettingController.php:46-51 | creating a valid setting and deleting it while unused restores the table |
| RuleSettingAdmin.SharedNameBlocksEdit | app/Http/Controllers/Admin/RuleSettingController.php:69 | two rows that share a name both fail the uniqueness rule when edited under that name |
| Draft.Drafted | app/Http/Controllers/PoolPlayerController.php:33-35 | the player is among the pool's selected ids exactly when the first-match search finds a pick |
| Draft.WellFormed | app/Http/Controllers/PoolPlayerController.php:74-86 | definition of the validation: a player id and non-empty name, position, team code and team name; `Store` rejects exactly the requests it fails |
| Draft.AtCeiling | app/Http/Controllers/PoolPlayerController.php:104-124 | definition of a full position: the requester's picks at that position reach its `by_position` max; `Store` rejects exactly those |
| Draft.FindSelection | app/Http/Controllers/PoolPlayerController.php:89-91 | finds an existing pick of (pool, player), and finds none exactly when there is none |
| Draft.CountAt | app/Http/Controllers/PoolPlayerController.php:109-112 | the per-user per-position count is at most the number of picks |
| Draft.CountAtConcat | app/Http/Controllers/PoolPlayerController.php:109-112 | the count distributes over concatenation |
| Draft.MaxOrder | app/Http/Controllers/PoolPlayerController.php:123-124 | none exactly when the pool has no picks; otherwise an upper bound on the pool's draft orders that one of them attains |
| Draft.NextOrder | app/Http/Controllers/PoolPlayerController.php:122-137 | strictly greater than every draft order in the pool; 1 for an empty pool; otherwise max + 1 |
| Draft.PositionCeiling | app/Http/Controllers/PoolPlayerController.php:101-107 | a ceiling exists exactly when the position is listed with a max > 0, and then it is that max |
| Draft.NoCeilingCases | app/Http/Controllers/PoolPlayerController.php:104-107 | no ceiling for missing `by_position`, an unlisted position, or a null or 0 max |
| Draft.AppendKeepsInvariant | app/Http/Controllers/PoolPlayerController.php:127-137 | appending a fresh-id pick of an undrafted player keeps ids unique and below the counter, and (pool, player) unique |
| Draft.RemoveKeepsInvariant | app/Http/Controllers/PoolPlayerController.php:177 | removing a pick keeps the table invariant |
| Draft.RemoveAt | app/Http/Controllers/PoolPlayerController.php:177 | removal drops exactly one pick |
| Draft.RemovalFreesPlayer | app/Http/Controllers/PoolPlayerController.php:177 | after removal the player is no longer drafted in that pool |
| Draft.RemovalCounts | app/Http/Controllers/PoolPlayerController.php:176-177 | removal lowers the position count by one exactly for the removed pick's own (pool, user, position) |
| Draft.IndexOfId | app/Http/Controllers/PoolPlayerController.php:161 | finds the pick with the id, and finds none exactly when there is none |
| Draft.PickTable.constructor | database/migrations/2025_12_27_035238_create_pool_players_table.php:14-31 | an empty table that satisfies the invariant |
| Draft.PickTable.Store | app/Http/Controllers/PoolPlayerController.php:72-156 | rejects an invalid request; rejects a drafted player and reports the drafter's name; rejects a full position; an otherwise admissible request without the `headshot_url` key fails (500); all four leave the table unchanged; every other admissible request appends exactly one pick for the requester with the next draft order, and the position count stays within its ceiling |
| Draft.PickTable.Destroy | app/Http/Controllers/PoolPlayerController.php:161-188 | refuses a pick of another pool or another user with nothing changed; otherwise removes exactly that pick, whatever the pool's phase |
| Draft.Hit | app/Http/Controllers/PoolPlayerController.php:49-60 | available exactly when the player is undrafted in the pool; otherwise `selected_by` is the name of a drafter of that player, the one drafter when selections are unique |
| Draft.PickTable.Search | app/Http/Controllers/PoolPlayerController.php:19-67 | a query under 2 characters returns nothing and touches no cache; otherwise one hit per result of the (cached) search, in order; each hit is `Draft.Hit` of its player (availability and drafter's name), counts 0 games without a team, and otherwise counts its team's games in [start+1, end] as the games cache answered before the search, or as the schedule gives on a miss |
| Draft.PickTable.EnrichAll | app/Http/Controllers/PoolPlayerController.php:38-61 | the `map` over the results: one hit per player, in order, each with the availability of `Draft.Hit` and the games count the cache held before the loop or the schedule's count |
| Draft.PickTable.Enrich | app/Http/Controllers/PoolPlayerController.php:39-60 | one hit: 0 games without a team, otherwise the cached or fresh team count; the cache still answers every team as before |
| Draft.NextOrderIsFresh | app/Http/Controllers/PoolPlayerController.php:123-124 | a new draft order beats every existing one in the pool |
| Draft.AddedPickCounts | app/Http/Controllers/PoolPlayerController.php:109-137 | an added pick raises the count by one exactly for its own (pool, user, position) |
| PoolPage.ScoringWindow | routes/web.php:107-109 | the window runs from the formatted day after the start to the formatted end |
| PoolPage.ViewerStatus | routes/web.php:96-105 | the status the page computes: never finished, active exactly when today is past the draft day; a completion stamp has no effect, since the loaded pivot lacks that column |
| PoolPage.SelectionCompleted | routes/web.php:97-98 | definition: the viewer's first pivot row holds a completion stamp |
| PoolPage.IntendedViewerStatus | routes/web.php:96-105 | the evidently intended status: active exactly when today is past the draft day or the viewer's first pivot row is stamped |
| PoolPage.IntendedDiffersOnlyForCompleted | routes/web.php:96-105 | the computed and the intended status differ exactly for a stamped viewer on or before the draft day |
| PoolPage.CompletedMemberStillSelecting | routes/web.php:97-105 | a member who completed selection is still in selection on the draft day and may delete its own picks, where the intended status is active with no deletion |
| PoolPage.ViewerFollowsPool | routes/web.php:103-105 | with ordered dates, the viewer is in selection exactly when the pool is |
| PoolPage.CompletionActivatesViewer | app/Http/Controllers/PoolController.php:108-110 | under the intended status, stamping a member's rows makes that member active, even on the draft day |
| PoolPage.IsPoolAdmin | routes/web.php:94 | definition of `is_admin`: a super admin or the pool's owner; `Show` states that the page reports it |
| PoolPage.PickPoints | routes/web.php:133-145 | definition of one pick's points by position from the four legacy columns; the lemmas below state its properties |
| PoolPage.FormulaFollowsPosition | routes/web.php:126-146 | goalie points ignore skater stats and skater points ignore goalie stats |
| PoolPage.OnlyLegacyColumnsCount | routes/web.php:133-156 | points do not depend on the defeat and overtime columns, the rules blob, or upstream points |
| PoolPage.EachStatEarnsItsColumn | routes/web.php:133-145 | one more goal or assist is worth exactly that column for a skater, one more win or shutout exactly that column for a goalie |
| PoolPage.SkaterPointsSumOverGames | routes/web.php:144-145 | skater points over two game lists add up |
| PoolPage.PointsNonNegative | routes/web.php:133-145 | non-negative stats and columns give non-negative points |
| PoolPage.StructuredRulesIgnored | routes/web.php:144-145 | a custom setting with a 5-point goal rule still scores a goal at the 2-point column default |
| PoolPage.Shown | routes/web.php:136-156 | shown points are the formula; goalies show 0 goals and 0 assists plus their wins, shutouts and games; skaters show their own stats |
| PoolPage.SelectedRow | routes/web.php:114-174 | each row keeps its pick, scores with the window stats, and can be deleted exactly when the viewer owns it and is in selection |
| PoolPage.Rows | routes/web.php:114-174 | one row per pick, in pick order |
| PoolPage.SelectedPlayersRanked | routes/web.php:175-177 | the listed players are a permutation of the rows, sorted by descending points, with rows of equal points in pick order |
| PoolPage.CanDelete | routes/web.php:169 | definition of `can_delete`: the viewer's own pick while the viewer is selecting; `SelectedRow` and `NoDeletionWhenActive` state it |
| PoolPage.SelectedPlayers | routes/web.php:114-177 | definition of `selected_players`: the rows sorted by descending points; `SelectedPlayersRanked` states the permutation and the order |
| PoolPage.NoDeletionWhenActive | routes/web.php:169 | an active viewer can delete nothing |
| PoolPage.Contribution | routes/web.php:216-239 | a pick adds its formula points, and a goalie adds no goals, assists or plus/minus |
| PoolPage.Totals | routes/web.php:207-240 | definition of a participant's running totals over its picks; `TotalsAppend`, `TotalsMatchRows` and `ParticipantTotals` state its properties |
| PoolPage.TotalsAppend | routes/web.php:207-240 | totals over a concatenation are the sum of the totals |
| PoolPage.GoalieAddsOnlyPoints | routes/web.php:219-228 | adding a goalie leaves total goals, assists and plus/minus unchanged |
| PoolPage.PicksOf | routes/web.php:200 | exactly the picks of that user |
| PoolPage.TotalsMatchRows | routes/web.php:199-240 | a participant's total points equal the sum of the points of that participant's rows |
| PoolPage.ParticipantTotals | routes/web.php:199-256 | the foreach loop computes the participant's totals over their picks, their pick count and owner flag |
| PoolPage.ParticipantOf | routes/web.php:199-256 | definition of one participant row (totals of its picks, pick count, 0 injured, owner flag); `ParticipantTotals` proves the loop computes it |
| PoolPage.Standings | routes/web.php:199-257 | definition of the participants list sorted by descending total points; `Participants` proves the loop computes it, sorted |
| PoolPage.Participants | routes/web.php:199-257 | the standings: one row per user, sorted by descending total points |
| PoolPage.OwnedCount | routes/web.php:180-182 | the viewer's pick count is at most the number of picks |
| PoolPage.PositionCountWithinOwned | routes/web.php:180-195 | a position count never exceeds the viewer's pick count |
| PoolPage.PositionCounts | routes/web.php:188-196 | one count per `by_position` key (none without limits), each the viewer's pick count at that position |
| PoolPage.PoolPicks | routes/web.php:91 | exactly the picks of the pool |
| PoolPage.Show | routes/web.php:90-277 | the page's status, admin flag, ranked players, counts, limits and standings are those defined above; the standings list one participant per pivot row, each a member; the status is the computed one, which equals the intended one except for a stamped viewer up to the draft day |
| PoolPage.Visible | routes/web.php:28-39 | definition of the dashboard filter by role; `Listed` and `DashboardFilter` state it |
| PoolPage.Listed | routes/web.php:28-41 | at most as many pools, and exactly the visible ones |
| PoolPage.DashboardFilter | routes/web.php:28-39 | a superAdmin sees every pool; a poolAdmin sees exactly the pools they own; anyone else sees exactly the pools they belong to |
| PoolPage.DashRow | routes/web.php:42-56 | a row shows the status recomputed for today, the number of pivot rows as participant count (`withCount`) and whether the viewer owns the pool |
| PoolPage.ViewsAre | routes/web.php:41-45 | a pool snapshot sequence is fixed by each pool's snapshot |
| PoolPage.RefreshListed | routes/web.php:41-45 | each listed pool's saved status becomes today's status; unlisted pools and every other field are unchanged |
| PoolPage.Dashboard | routes/web.php:21-65 | listed rows after the status refresh, the top 5 scorers served through the cache, and pool creation offered exactly to superAdmin and poolAdmin |
| NHLApi.Cache.Lookup | app/Services/NHLApiService.php:19 | a hit exactly when the key is stored and not yet expired, returning the stored value |
| NHLApi.Cache.Put | app/Services/NHLApiService.php:19 | stores the value under the key until now + ttl and changes no other key |
| NHLApi.Total | app/Services/NHLApiService.php:375-380 | definition of a per-game sum with a missing field as 0; `TotalAppend` states its additivity |
| NHLApi.StatsFor | app/Services/NHLApiService.php:346-388 | definition of the stats answer: zeros on failure, the window totals otherwise; `EmptyWindowIsZero` and `AggregatePlayerStats` state it |
| NHLApi.EmptyWindowIsZero | app/Services/NHLApiService.php:346-366 | empty data and a failed response both give all-zero stats |
| NHLApi.TotalAppend | app/Services/NHLApiService.php:375-380 | a per-game sum over a concatenation is the sum of the sums |
| NHLApi.WindowTotalsAppend | app/Services/NHLApiService.php:369-388 | aggregates over concatenated game lists add field by field |
| NHLApi.WindowTotals | app/Services/NHLApiService.php:369-388 | the number of games played is the number of game records |
| NHLApi.AggregatePlayerStats | app/Services/NHLApiService.php:346-388 | the loop computes the per-field sums (missing fields count 0) with games played = number of records, and zeros on failure |
| NHLApi.GetPlayerStatsInDateRange | app/Services/NHLApiService.php:326-390 | a live entry is returned without a request; a miss requests, aggregates and stores the result for 60 seconds |
| NHLApi.TeamFullName | app/Services/NHLApiService.php:223-261 | the mapped name for a known abbreviation, the abbreviation itself otherwise |
| NHLApi.TeamTablesAgree | app/Services/NHLApiService.php:308-321 | both team tables list the same abbreviations |
| NHLApi.TeamIdsPositive | app/Services/NHLApiService.php:310-320 | every known team has a truthy id |
| NHLApi.TeamFullNameFallsBackExactlyWhenUnknown | app/Services/NHLApiService.php:260 | the name is the abbreviation exactly when the abbreviation is unknown |
| NHLApi.InWindow | app/Services/NHLApiService.php:288-298 | definition of the game filter: a truthy `gameDate` whose first ten characters lie in [start, end], bounds included; `UndatedGamesDoNotCount` and `NarrowerWindowCountsLess` state its properties |
| NHLApi.CountInWindow | app/Services/NHLApiService.php:288-299 | the count never exceeds the number of games |
| NHLApi.CountInWindowStep | app/Services/NHLApiService.php:288-299 | one more game adds one to the count exactly when its date lies in the window |
| NHLApi.NoneInWindow | app/Services/NHLApiService.php:288-299 | the count is 0 exactly when no game lies in the window |
| NHLApi.AllInWindow | app/Services/NHLApiService.php:288-299 | the count equals the number of games exactly when every game lies in the window |
| NHLApi.TeamGames | app/Services/NHLApiService.php:270-301 | unknown team or failed schedule gives 0; a known team with a schedule gives the number of its games in the window |
| NHLApi.UndatedGamesDoNotCount | app/Services/NHLApiService.php:289-293 | a game without a date adds nothing |
| NHLApi.NarrowerWindowCountsLess | app/Services/NHLApiService.php:296-298 | a window inside another counts no more games |
| NHLApi.GetTeamGamesInDateRange | app/Services/NHLApiService.php:266-303 | a live entry is returned without a request; a miss requests only for a known team, and stores the count for 6 hours; the answer is what the cache held, or the schedule's count, and the cache then gives that answer |
| NHLApi.CachedTeamGames | app/Services/NHLApiService.php:266-303 | definition of the answer `Cache::remember` gives for a team: the live cached count, or the schedule's count on a miss; `GetTeamGamesInDateRange` and `MissKeepsAnswers` state it |
| NHLApi.TeamGamesKeyInjective | app/Services/NHLApiService.php:268 | within one window, two teams share a cache key only if they are the same team |
| NHLApi.MissKeepsAnswers | app/Services/NHLApiService.php:268-300 | storing a team's fresh count on a miss changes no team's answer for that window |
| NHLApi.FirstName | app/Services/NHLApiService.php:56-60 | definition: the first space-separated token; `NameSplit` states what it is |
| NHLApi.LastName | app/Services/NHLApiService.php:61 | definition: the rest of the tokens joined by spaces, or the first token when that is falsy; `NameSplit` states what it is |
| NHLApi.HeadshotUrl | app/Services/NHLApiService.php:395-412 | definition of the season mug shot URL with a team, the generic one without |
| NHLApi.ToTopScorer | app/Services/NHLApiService.php:54-76 | definition of the top-scorers mapping of one row (team from `teamAbbrev`); `TopScorers` states the list |
| NHLApi.ToPlayerSummary | app/Services/NHLApiService.php:117-143 | definition of the listing and search mapping of one row (team from `teamAbbrevs`); `PlayerPageOf` states the page |
| NHLApi.NameSplit | app/Services/NHLApiService.php:55-61 | first name is the first space-free token; last name is the rest joined by spaces, or the first token when the rest is empty |
| NHLApi.Take | app/Services/NHLApiService.php:54 | a prefix of length min(n, length) for n ≥ 0, never longer than the input |
| NHLApi.TopScorers | app/Services/NHLApiService.php:48-76 | [] on failure; at most `limit` entries, each the mapping of the row at its position |
| NHLApi.GetTopScorers | app/Services/NHLApiService.php:17-78 | a live entry is returned without a request; a miss requests and stores for 6 hours |
| NHLApi.TopScorersTwice | app/Services/NHLApiService.php:19 | within the TTL a second call, even with another limit, makes no request and returns the first result |
| NHLApi.PlayerPageOf | app/Services/NHLApiService.php:106-144 | an empty page with total 0 on failure; otherwise one summary per row and the upstream total |
| NHLApi.SearchKeyIgnoresCase | app/Services/NHLApiService.php:153 | queries equal up to ASCII case share a cache key |
| NHLApi.GetAllPlayers | app/Services/NHLApiService.php:83-146 | a live entry under `nhl_all_players_<start>_<limit>` is returned without a request; a miss requests and stores for 24 hours |
| NHLApi.SearchPlayers | app/Services/NHLApiService.php:151-218 | a live entry under the lowercased key is returned without a request; a miss requests and stores for 6 hours |
| NHLApi.SearchTwiceInOtherCase | app/Services/NHLApiService.php:153-155 | the same query in another case within the TTL makes no second request and returns the first page |
| PhpStrings.Truthy | app/Services/NHLApiService.php:289-293 | definition of PHP string truthiness: only "" and "0" are falsy |
| PhpStrings.StrLe | app/Services/NHLApiService.php:296-297 | definition of PHP `<=` on non-numeric strings: byte-wise lexicographic order; `StrLeTransitive` states it is an order |
| PhpStrings.Explode | app/Services/NHLApiService.php:56 | `explode(' ')`: never an empty list; `ExplodeTokensHaveNoSpace`, `ExplodeCount` and `ImplodeExplode` state what it is |
| PhpStrings.Implode | app/Services/NHLApiService.php:61 | definition of `implode(' ')`; `ImplodeExplode` states it undoes `Explode` |
| PhpStrings.Lower | app/Services/NHLApiService.php:153 | same length, each character ASCII-lowercased |
| PhpStrings.LowerIdempotent | app/Services/NHLApiService.php:153 | lowercasing twice is lowercasing once |
| PhpStrings.Prefix | app/Services/NHLApiService.php:296 | `substr(s, 0, n)`: a prefix of length min(n, length) |
| PhpStrings.StrLeTransitive | app/Services/NHLApiService.php:298 | string `<=` is transitive |
| PhpStrings.ExplodeTokensHaveNoSpace | app/Services/NHLApiService.php:56 | no token of `explode(' ')` contains a space |
| PhpStrings.ExplodeCount | app/Services/NHLApiService.php:56 | at least two tokens exactly when the string contains a space |
| PhpStrings.ImplodeExplode | app/Services/NHLApiService.php:56-61 | `implode(' ', explode(' ', s)) == s` |
| Sorting.SortByDesc | routes/web.php:175-177 | `sortByDesc`: as many elements as the input; its three lemmas state order, permutation and stability |
| Sorting.SortByDescSorted | routes/web.php:175-177 | `sortByDesc` output is in descending key order |
| Sorting.SortByDescPermutes | routes/web.php:175-177 | `sortByDesc` output is a permutation of its input |
| Sorting.SortByDescStable | routes/web.php:175-177 | elements with equal keys keep their input order |
| AdminGate.Handle | app/Http/Middleware/EnsureUserIsAdmin.php:16-26 | no user: 403; a super admin or an `admin`-role user passes; anyone who passes is one of those |
| AdminGate.SuperAdminFlagAloneDecides | app/Http/Middleware/EnsureUserIsAdmin.php:21 | without the admin role, the super-admin flag alone decides |
| AdminGate.BanAndPoolRolesAreIgnored | app/Http/Middleware/EnsureUserIsAdmin.php:21 | banning and the poolAdmin or superAdmin role names do not change the decision |
| UserAdmin.RoleChangeRefusal | app/Http/Controllers/Admin/UserController.php:44-76 | a super-admin target is protected; a non-super-admin actor can neither manage an admin nor assign `admin`; accepted exactly when none of the guards fires and the role exists |
| UserAdmin.BanRefusal | app/Http/Controllers/Admin/UserController.php:81-97 | a super-admin target is protected; accepted exactly when the target is no super admin and either the actor is one or the target is no admin |
| UserAdmin.DeleteRefusal | app/Http/Controllers/Admin/UserController.php:110-133 | a super-admin target is protected; one's own account is refused; accepted exactly when no guard fires |
| UserAdmin.Toggled | app/Http/Controllers/Admin/UserController.php:99-102 | flips `is_banned`; `banned_at` is set to now exactly when banning; nothing else changes |
| UserAdmin.ToggleTwice | app/Http/Controllers/Admin/UserController.php:99-102 | two toggles restore `is_banned` |
| UserAdmin.Listed | app/Http/Controllers/Admin/UserController.php:24-27 | exactly the users who are not super admins |
| UserAdmin.AssignableRoles | app/Http/Controllers/Admin/UserController.php:30-32 | every known role except `admin`, which is offered only to a super admin |
| UserAdmin.OfferedRolesAreAccepted | app/Http/Controllers/Admin/UserController.php:62-71 | a role the index offers is accepted for a non-admin, non-super-admin target |
| UserAdmin.UserDirectory.UpdateRole | app/Http/Controllers/Admin/UserController.php:44-76 | a refusal changes nothing; success leaves the user with exactly the requested role |
| UserAdmin.UserDirectory.ToggleBan | app/Http/Controllers/Admin/UserController.php:81-105 | a refusal changes nothing; success toggles only that user's ban |
| UserAdmin.UserDirectory.Destroy | app/Http/Controllers/Admin/UserController.php:110-138 | a refusal changes nothing; success removes only that user |
| UserAdmin.SelfDeletionRefused | app/Http/Controllers/Admin/UserController.php:122-126 | deleting one's own account is always refused |

## Left out

- HTTP requests to the NHL API are inputs. Each is a failure or a list of
  records. URL and query building are not modelled. The headshot URL is
  modelled only as string concatenation.
- `getGoalieStatsInDateRange` is not defined in the service. Wins,
  shutouts and games played are the values of an uninterpreted function
  of (player, from, to).
- Finding the current week for top scorers (`startOfWeek`, `endOfWeek`)
  is not modelled. Its upstream response is an input.
- The clock is an integer parameter. Cache expiry is `now < expiresAt`.
  Formatting dates as `Y-m-d` is a parameter, `formatDay`.
- Broadcasting (`PlayerSelected`, `PlayerRemoved`) is fire-and-forget I/O
  and is left out.
- Concurrency is left out: the `draft_order` read-then-insert race, and
  concurrent cache misses with no single-flight. The database uniqueness of
  (pool, player) is carried as the `Draft.TableInvariant` invariant.
- Of the exceptions the `try/catch` of the pick `store` turns into a 500,
  only the one the code itself raises is modelled: reading the absent
  `headshot_url` key (outcome `Failed`). A database insert failure or a
  failing broadcast are left out, because they come from services outside
  the model.
- Validation framework internals are left out. Each submitted field is
  `Option`. None stands for absent, null, the empty string or the wrong
  type. Laravel's `TrimStrings` and numeric-string coercion are not
  modelled.
- `strlen` and `max:255` count characters, not bytes.
- String comparison is modelled as byte-wise `strcmp`. PHP's
  numeric-string comparison is not modelled, since dates are never
  numeric strings.
- `shooting_pct` is an opaque decimal string, because floats pass through
  unchanged.
- The pool page loads statistics through the service. The model reads them
  from a `StatsSource` of pure functions, so the page's own use of the
  caches is not modelled.
- `withCount('pools')` on the admin index pages is display only and is
  left out. `RuleSettingController::index` and `PoolController::create` are
  plain reads and are left out.
- `Pools.Pool.Attach`: whether `pool_user` has a unique index on
  (pool, user) is not known, because its migration is not part of this
  model. The model inserts one row per listed id, which is what `attach`
  does without such an index. With one, a repeated id would end in a 500
  after the pool and any custom setting were already written, since the
  `store` runs no transaction; that path is not modelled.
- `PoolPage.Show`: requires `users` to hold one user per pivot row, in
  pivot order, as `$pool->users` loads them.
- `PoolPage.RefreshListed`: requires the pool objects to be distinct, as
  rows loaded from the database are.
- `PoolPage.Dashboard`: requires the pool objects to be distinct, as rows
  loaded from the database are.
- Name uniqueness is an exact string match. Database collation, which may
  ignore case, is not modelled.
- `UserAdmin.UserDirectory.Destroy`: cascading deletions of the user's
  picks and pivot rows are not modelled.
- `RuleSettingAdmin.Destroy`: the pools that use settings are given as a
  list of `rule_setting_id` values.
- The static fixture data (`MockPoolData`), factories, seeders and the
  admin route file are configuration and are not part of this model. The
  migrations are used only for column defaults and the (pool, player)
  uniqueness. `SyncPoolStats` only prints and broadcasts and is left out.

## Findings

| source | as written | input that shows it | evidently intended | confidence | as-written member | corrected member |
|---|---|---|---|---|---|---|
| routes/web.php:97-98 | the page reads `selection_completed_at` from the pivot of `Pool::users()`, which declares no `withPivot` (app/Models/Pool.php:37-40), so the value is always null and completing selection never changes the viewer's status | a member who has completed selection opens the pool page on the draft day: status selection, and `can_delete` true on that member's own picks | the completion stamp written by `completeSelection` makes the viewer active (`withPivot('selection_completed_at')`) | high (not executed) | PoolPage.CompletedMemberStillSelecting | PoolPage.IntendedViewerStatus |
