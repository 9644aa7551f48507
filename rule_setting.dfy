/**
 * Rule settings (app/Models/RuleSetting.php): a structured `rules` blob with a
 * fallback to the legacy per-stat columns, and the table that stores them.
 */
module RuleSettings {
  import opened Wrappers

  datatype ScoringRule = ScoringRule(ruleType: string, ruleLabel: string, points: int)

  /** One `by_position` entry; either bound may be absent (null). */
  datatype PositionLimit = PositionLimit(min: Option<int>, max: Option<int>)

  /** `player_limits`: both keys may be missing from a stored blob. */
  datatype PlayerLimits = PlayerLimits(maxPerUser: Option<int>, byPosition: Option<map<string, PositionLimit>>)

  /**
   * The `rules` JSON column. `scoringRules` / `playerLimits` are None when the
   * key is absent or null (`isset` is false); `otherEntries` counts every other
   * key, null-valued ones included. A null column and `[]` are both the blob
   * with no entries at all.
   */
  datatype RulesBlob = RulesBlob(scoringRules: Option<seq<ScoringRule>>, playerLimits: Option<PlayerLimits>, otherEntries: nat)

  predicate IsEmptyBlob(b: RulesBlob) {
    b.scoringRules.None? && b.playerLimits.None? && b.otherEntries == 0
  }

  datatype RuleSetting = RuleSetting(
    name: string,
    pointsPerGoal: Option<int>,
    pointsPerAssist: Option<int>,
    pointsPerShutout: Option<int>,
    pointsPerVictory: Option<int>,
    pointsPerDefeat: Option<int>,
    pointsPerOvertime: Option<int>,
    isDefault: bool,
    maxPlayersPerUser: Option<int>,
    positionLimits: Option<map<string, PositionLimit>>,
    rules: RulesBlob,
    templateType: Option<string>)

  /** PHP truthiness of a nullable integer column: null and 0 are falsy. */
  predicate TruthyInt(v: Option<int>) {
    v.Some? && v.value != 0
  }

  /** The four legacy columns the fallback reads, in the order it reads them. */
  datatype LegacyStat = Goal | Assist | Shutout | Victory

  function TypeName(k: LegacyStat): string {
    match k
    case Goal => "goal"
    case Assist => "assist"
    case Shutout => "shutout"
    case Victory => "victory"
  }

  function Label(k: LegacyStat): string {
    match k
    case Goal => "But"
    case Assist => "Passe"
    case Shutout => "Blanchissage"
    case Victory => "Victoire"
  }

  function Order(k: LegacyStat): nat {
    match k
    case Goal => 0
    case Assist => 1
    case Shutout => 2
    case Victory => 3
  }

  function Column(rs: RuleSetting, k: LegacyStat): Option<int> {
    match k
    case Goal => rs.pointsPerGoal
    case Assist => rs.pointsPerAssist
    case Shutout => rs.pointsPerShutout
    case Victory => rs.pointsPerVictory
  }

  /** The rule a legacy column contributes. */
  function LegacyEntry(rs: RuleSetting, k: LegacyStat): ScoringRule
    requires TruthyInt(Column(rs, k))
  {
    ScoringRule(TypeName(k), Label(k), Column(rs, k).value)
  }

  /** The structured list is used exactly when `rules['scoring_rules']` is set. */
  predicate HasDynamicScoring(rs: RuleSetting) {
    rs.rules.scoringRules.Some?
  }

  /**
   * `getScoringRules`. With a structured list: that list, verbatim. Otherwise the
   * legacy list, built by appending one entry per truthy column in the
   * order goal, assist, shutout, victory; defeat and overtime never appear, and
   * all-zero/null columns give the empty list.
   */
  method GetScoringRules(rs: RuleSetting) returns (r: seq<ScoringRule>)
    ensures HasDynamicScoring(rs) ==> r == rs.rules.scoringRules.value
    ensures !HasDynamicScoring(rs) ==>
      forall i :: 0 <= i < |r| ==> exists k :: TruthyInt(Column(rs, k)) && r[i] == LegacyEntry(rs, k)
    ensures !HasDynamicScoring(rs) ==>
      forall k :: TruthyInt(Column(rs, k)) ==> LegacyEntry(rs, k) in r
    ensures !HasDynamicScoring(rs) ==>
      forall i, j :: 0 <= i < j < |r| ==> RankOf(r[i]) < RankOf(r[j])
    ensures !HasDynamicScoring(rs) ==>
      (r == [] <==> forall k :: !TruthyInt(Column(rs, k)))
  {
    if rs.rules.scoringRules.Some? {
      return rs.rules.scoringRules.value;
    }
    r := [];
    if TruthyInt(rs.pointsPerGoal) {
      r := r + [LegacyEntry(rs, Goal)];
    }
    assert r == Piece(rs, Goal);
    if TruthyInt(rs.pointsPerAssist) {
      r := r + [LegacyEntry(rs, Assist)];
    }
    assert r == Piece(rs, Goal) + Piece(rs, Assist);
    if TruthyInt(rs.pointsPerShutout) {
      r := r + [LegacyEntry(rs, Shutout)];
    }
    assert r == Piece(rs, Goal) + Piece(rs, Assist) + Piece(rs, Shutout);
    if TruthyInt(rs.pointsPerVictory) {
      r := r + [LegacyEntry(rs, Victory)];
    }
    assert r == LegacyList(rs);
    LegacyListShape(rs, r);
  }

  /** What one legacy column contributes to the fallback list: its entry, or nothing. */
  function Piece(rs: RuleSetting, k: LegacyStat): seq<ScoringRule> {
    if TruthyInt(Column(rs, k)) then [LegacyEntry(rs, k)] else []
  }

  lemma PieceShape(rs: RuleSetting, k: LegacyStat)
    ensures forall x :: x in Piece(rs, k) ==> TruthyInt(Column(rs, k)) && x == LegacyEntry(rs, k) && RankOf(x) == Order(k)
    ensures TruthyInt(Column(rs, k)) ==> LegacyEntry(rs, k) in Piece(rs, k)
  {
  }

  /** The fallback list: the four pieces in order. */
  function LegacyList(rs: RuleSetting): seq<ScoringRule> {
    Piece(rs, Goal) + Piece(rs, Assist) + Piece(rs, Shutout) + Piece(rs, Victory)
  }

  lemma LegacyListSound(rs: RuleSetting)
    ensures var r := LegacyList(rs);
            forall i :: 0 <= i < |r| ==> exists k :: TruthyInt(Column(rs, k)) && r[i] == LegacyEntry(rs, k)
  {
    PieceShape(rs, Goal);
    PieceShape(rs, Assist);
    PieceShape(rs, Shutout);
    PieceShape(rs, Victory);
    var r := LegacyList(rs);
    assert forall i :: 0 <= i < |r| ==>
      r[i] in Piece(rs, Goal) || r[i] in Piece(rs, Assist) || r[i] in Piece(rs, Shutout) || r[i] in Piece(rs, Victory);
  }

  lemma LegacyListComplete(rs: RuleSetting)
    ensures forall k :: TruthyInt(Column(rs, k)) ==> LegacyEntry(rs, k) in LegacyList(rs)
  {
    forall k | TruthyInt(Column(rs, k)) ensures LegacyEntry(rs, k) in LegacyList(rs) {
      PieceShape(rs, k);
      match k
      case Goal => assert LegacyEntry(rs, k) in Piece(rs, Goal);
      case Assist => assert LegacyEntry(rs, k) in Piece(rs, Assist);
      case Shutout => assert LegacyEntry(rs, k) in Piece(rs, Shutout);
      case Victory => assert LegacyEntry(rs, k) in Piece(rs, Victory);
    }
  }

  lemma LegacyListOrdered(rs: RuleSetting)
    ensures var r := LegacyList(rs);
            forall i, j :: 0 <= i < j < |r| ==> RankOf(r[i]) < RankOf(r[j])
  {
    PieceShape(rs, Goal);
    PieceShape(rs, Assist);
    PieceShape(rs, Shutout);
    PieceShape(rs, Victory);
    var g, a, s, v := Piece(rs, Goal), Piece(rs, Assist), Piece(rs, Shutout), Piece(rs, Victory);
    var r := LegacyList(rs);
    forall i, j | 0 <= i < j < |r| ensures RankOf(r[i]) < RankOf(r[j]) {
      assert |g| <= 1 && |a| <= 1 && |s| <= 1 && |v| <= 1;
    }
  }

  lemma LegacyListEmpty(rs: RuleSetting)
    ensures LegacyList(rs) == [] <==> forall k :: !TruthyInt(Column(rs, k))
  {
    if LegacyList(rs) == [] {
      forall k ensures !TruthyInt(Column(rs, k)) {
        LegacyListComplete(rs);
      }
    }
  }

  /** The concatenation of the four pieces is the list the contract of GetScoringRules describes. */
  lemma LegacyListShape(rs: RuleSetting, r: seq<ScoringRule>)
    requires r == LegacyList(rs)
    ensures forall i :: 0 <= i < |r| ==> exists k :: TruthyInt(Column(rs, k)) && r[i] == LegacyEntry(rs, k)
    ensures forall k :: TruthyInt(Column(rs, k)) ==> LegacyEntry(rs, k) in r
    ensures forall i, j :: 0 <= i < j < |r| ==> RankOf(r[i]) < RankOf(r[j])
    ensures r == [] <==> forall k :: !TruthyInt(Column(rs, k))
  {
    LegacyListSound(rs);
    LegacyListComplete(rs);
    LegacyListOrdered(rs);
    LegacyListEmpty(rs);
  }

  /** Position of a legacy rule type in the fallback order (4 for any other type). */
  function RankOf(rule: ScoringRule): nat {
    if rule.ruleType == "goal" then 0
    else if rule.ruleType == "assist" then 1
    else if rule.ruleType == "shutout" then 2
    else if rule.ruleType == "victory" then 3
    else 4
  }

  /** The fallback list never carries the defeat or overtime columns. */
  lemma LegacyListHasNoDefeatOrOvertime(rs: RuleSetting, k: LegacyStat)
    requires TruthyInt(Column(rs, k))
    ensures LegacyEntry(rs, k).ruleType != "defeat" && LegacyEntry(rs, k).ruleType != "overtime"
    ensures RankOf(LegacyEntry(rs, k)) == Order(k)
  {
  }

  /**
   * `getPlayerLimits`: `rules['player_limits']` verbatim when set; otherwise
   * the legacy columns, with 20 players per user and no position limits as
   * the defaults for null columns.
   */
  function GetPlayerLimits(rs: RuleSetting): (l: PlayerLimits)
    ensures rs.rules.playerLimits.Some? ==> l == rs.rules.playerLimits.value
    ensures rs.rules.playerLimits.None? ==> l.maxPerUser == Some(rs.maxPlayersPerUser.GetOr(20))
    ensures rs.rules.playerLimits.None? ==> l.byPosition == Some(rs.positionLimits.GetOr(map[]))
  {
    if rs.rules.playerLimits.Some? then rs.rules.playerLimits.value
    else PlayerLimits(Some(rs.maxPlayersPerUser.GetOr(20)), Some(rs.positionLimits.GetOr(map[])))
  }

  /** `usesDynamicRules`: the `rules` column is non-empty. */
  function UsesDynamicRules(rs: RuleSetting): (b: bool)
    ensures b <==> !IsEmptyBlob(rs.rules)
    ensures HasDynamicScoring(rs) ==> b
  {
    !IsEmptyBlob(rs.rules)
  }

  /**
   * The flag and the scoring source are not the same thing: a setting whose
   * blob only holds player limits reports dynamic rules yet still scores
   * from the legacy columns.
   */
  lemma DynamicFlagDoesNotImplyDynamicScoring(rs: RuleSetting, limits: PlayerLimits)
    requires rs.rules == RulesBlob(None, Some(limits), 0)
    ensures UsesDynamicRules(rs) && !HasDynamicScoring(rs)
    ensures GetPlayerLimits(rs) == limits
  {
  }

  /** The rule_settings table: rows by id, ids handed out increasingly from 1. */
  class RuleSettingTable {
    var settings: map<int, RuleSetting>
    var nextId: int

    ghost predicate Valid()
      reads this
    {
      nextId >= 1 && forall id :: id in settings ==> 1 <= id < nextId
    }

    constructor ()
      ensures Valid() && settings == map[]
    {
      settings := map[];
      nextId := 1;
    }

    /** `RuleSetting::create`: inserts a row under a fresh positive id. */
    method Create(s: RuleSetting) returns (id: int)
      requires Valid()
      modifies this
      ensures Valid()
      ensures id >= 1 && id !in old(settings)
      ensures settings == old(settings)[id := s]
    {
      id := nextId;
      settings := settings[id := s];
      nextId := nextId + 1;
    }
  }
}
