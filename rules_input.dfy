/**
 * The submitted rules array validated by both PoolController::store
 * (`custom_rules.*`) and Admin\RuleSettingController::store/update
 * (`rules.*`), and its conversion into the stored `rules` blob.
 *
 * Each submitted value is an Option: None stands for a key that is absent,
 * null, or of the wrong type (a non-string label, a non-integer number).
 */
module RulesInput {
  import opened Wrappers
  import opened RuleSettings

  datatype RuleInput = RuleInput(ruleType: Option<string>, ruleLabel: Option<string>, points: Option<int>)

  datatype LimitInput = LimitInput(min: Option<int>, max: Option<int>)

  /** `player_limits`; None as a whole when absent, null or the empty array. */
  datatype LimitsInput = LimitsInput(maxPerUser: Option<int>, byPosition: Option<map<string, LimitInput>>)

  /** The submitted array; `otherEntries` counts keys no rule mentions (they make it non-empty). */
  datatype RulesRequest = RulesRequest(scoringRules: Option<seq<RuleInput>>, playerLimits: Option<LimitsInput>, otherEntries: nat)

  /** PHP `empty()` of the submitted array: it has no key at all. */
  predicate IsEmptyRequest(r: RulesRequest) {
    r.scoringRules.None? && r.playerLimits.None? && r.otherEntries == 0
  }

  /** The keys a rules array can fail on. */
  datatype RulesError =
    | ScoringRulesMissing
    | ScoringRuleInvalid(index: nat)
    | PlayerLimitsMissing
    | MaxPerUserInvalid
    | PositionLimitInvalid(position: string)

  /** `scoring_rules.*`: type and label strings, points an integer of at least 0. */
  predicate ValidRule(e: RuleInput) {
    e.ruleType.Some? && e.ruleLabel.Some? && e.points.Some? && e.points.value >= 0
  }

  /** `max_per_user`: an integer from 1 to 50. */
  predicate ValidMaxPerUser(l: Option<LimitsInput>) {
    l.Some? && l.value.maxPerUser.Some? && 1 <= l.value.maxPerUser.value <= 50
  }

  /** `by_position.*.min|max`: nullable, otherwise an integer from 0 to 20. */
  predicate ValidBound(b: Option<int>) {
    b.None? || 0 <= b.value <= 20
  }

  predicate ValidLimit(l: LimitInput) {
    ValidBound(l.min) && ValidBound(l.max)
  }

  function RuleErrors(rules: seq<RuleInput>): (errs: set<RulesError>)
    ensures forall e :: e in errs ==> e.ScoringRuleInvalid?
    ensures forall i: nat :: ScoringRuleInvalid(i) in errs <==> i < |rules| && !ValidRule(rules[i])
  {
    set i: nat | i < |rules| && !ValidRule(rules[i]) :: ScoringRuleInvalid(i)
  }

  function PositionErrors(positions: map<string, LimitInput>): (errs: set<RulesError>)
    ensures forall e :: e in errs ==> e.PositionLimitInvalid?
    ensures forall p :: PositionLimitInvalid(p) in errs <==> p in positions && !ValidLimit(positions[p])
  {
    set p | p in positions && !ValidLimit(positions[p]) :: PositionLimitInvalid(p)
  }

  /**
   * Every error the rules array produces. `boundPositions` says whether the
   * `by_position` bounds are checked (pool creation) or not (the admin forms).
   */
  function Errors(r: RulesRequest, boundPositions: bool): (errs: set<RulesError>)
    ensures ScoringRulesMissing in errs <==> r.scoringRules.None? || |r.scoringRules.value| == 0
    ensures forall i: nat :: ScoringRuleInvalid(i) in errs <==>
      r.scoringRules.Some? && i < |r.scoringRules.value| && !ValidRule(r.scoringRules.value[i])
    ensures PlayerLimitsMissing in errs <==> r.playerLimits.None?
    ensures MaxPerUserInvalid in errs <==> !ValidMaxPerUser(r.playerLimits)
    ensures forall p :: PositionLimitInvalid(p) in errs <==>
      boundPositions && r.playerLimits.Some? && r.playerLimits.value.byPosition.Some?
      && p in r.playerLimits.value.byPosition.value && !ValidLimit(r.playerLimits.value.byPosition.value[p])
  {
    var positions := if boundPositions && r.playerLimits.Some? then r.playerLimits.value.byPosition.GetOr(map[]) else map[];
    (if r.scoringRules.None? || |r.scoringRules.value| == 0 then {ScoringRulesMissing} else {})
    + RuleErrors(r.scoringRules.GetOr([]))
    + (if r.playerLimits.None? then {PlayerLimitsMissing} else {})
    + (if ValidMaxPerUser(r.playerLimits) then {} else {MaxPerUserInvalid})
    + PositionErrors(positions)
  }

  predicate Valid(r: RulesRequest, boundPositions: bool) {
    Errors(r, boundPositions) == {}
  }

  function ToRule(e: RuleInput): ScoringRule
    requires ValidRule(e)
  {
    ScoringRule(e.ruleType.value, e.ruleLabel.value, e.points.value)
  }

  function ToLimit(l: LimitInput): PositionLimit {
    PositionLimit(l.min, l.max)
  }

  /**
   * The validated array as it is written to the `rules` column. Laravel's
   * `validated()` rebuilds an array that has nested rules from those rules
   * alone, so only `scoring_rules` (type, label, points) and `player_limits`
   * (max_per_user, by_position) are kept and every other key is dropped.
   */
  function ToBlob(r: RulesRequest): (b: RulesBlob)
    requires Valid(r, false)
    ensures b.otherEntries == 0
    ensures b.scoringRules.Some? && |b.scoringRules.value| == |r.scoringRules.value|
    ensures forall i :: 0 <= i < |b.scoringRules.value| ==>
      var e, s := r.scoringRules.value[i], b.scoringRules.value[i];
      Some(s.ruleType) == e.ruleType && Some(s.ruleLabel) == e.ruleLabel && Some(s.points) == e.points
    ensures b.playerLimits.Some? && b.playerLimits.value.maxPerUser == r.playerLimits.value.maxPerUser
    ensures b.playerLimits.value.byPosition.Some? <==> r.playerLimits.value.byPosition.Some?
    ensures b.playerLimits.value.byPosition.Some? ==>
      var kept, sent := b.playerLimits.value.byPosition.value, r.playerLimits.value.byPosition.value;
      kept.Keys == sent.Keys && forall p :: p in kept ==> kept[p].min == sent[p].min && kept[p].max == sent[p].max
  {
    assert ScoringRulesMissing !in Errors(r, false);
    assert MaxPerUserInvalid !in Errors(r, false);
    var rules := r.scoringRules.value;
    assert forall i :: 0 <= i < |rules| ==> ValidRule(rules[i]) by {
      forall i | 0 <= i < |rules| ensures ValidRule(rules[i]) {
        assert ScoringRuleInvalid(i) !in Errors(r, false);
      }
    }
    var l := r.playerLimits.value;
    RulesBlob(
      Some(seq(|rules|, i requires 0 <= i < |rules| => ToRule(rules[i]))),
      Some(PlayerLimits(l.maxPerUser, if l.byPosition.Some? then Some(map p | p in l.byPosition.value :: ToLimit(l.byPosition.value[p])) else None)),
      0)
  }

  /**
   * A row created from a validated array: template "custom", not the
   * default, the array as its blob. The legacy columns are not written and
   * keep the table defaults (goal 2, assist 1, shutout 3, victory 2,
   * defeat 0, overtime 1); the legacy limit columns stay null.
   */
  function StoredSetting(name: string, r: RulesRequest): (rs: RuleSetting)
    requires Valid(r, false)
    ensures rs.name == name && rs.templateType == Some("custom") && !rs.isDefault
    ensures rs.rules == ToBlob(r)
    ensures forall k :: TruthyInt(Column(rs, k))
  {
    RuleSetting(name, Some(2), Some(1), Some(3), Some(2), Some(0), Some(1),
                false, None, None, ToBlob(r), Some("custom"))
  }

  /** Checking the position bounds only adds errors: a pool-creation array is also a valid admin array. */
  lemma BoundsOnlyAddErrors(r: RulesRequest)
    ensures Errors(r, false) <= Errors(r, true)
    ensures Valid(r, true) ==> Valid(r, false)
  {
  }

  /**
   * A setting stored from a valid array scores with exactly the submitted
   * rules, every one worth at least 0 points, and caps each participant at
   * the submitted `max_per_user`, which lies between 1 and 50.
   */
  lemma {:induction false} StoredRulesAreSubmittedRules(r: RulesRequest, rs: RuleSetting)
    requires Valid(r, false) && rs.rules == ToBlob(r)
    ensures HasDynamicScoring(rs) && UsesDynamicRules(rs)
    ensures |rs.rules.scoringRules.value| == |r.scoringRules.value| >= 1
    ensures forall i :: 0 <= i < |r.scoringRules.value| ==>
      var e := r.scoringRules.value[i];
      var s := rs.rules.scoringRules.value[i];
      Some(s.ruleType) == e.ruleType && Some(s.ruleLabel) == e.ruleLabel && Some(s.points) == e.points && s.points >= 0
    ensures GetPlayerLimits(rs).maxPerUser == r.playerLimits.value.maxPerUser
    ensures 1 <= GetPlayerLimits(rs).maxPerUser.value <= 50
  {
    assert ScoringRulesMissing !in Errors(r, false);
    assert MaxPerUserInvalid !in Errors(r, false);
    forall i | 0 <= i < |r.scoringRules.value| ensures ValidRule(r.scoringRules.value[i]) {
      assert ScoringRuleInvalid(i) !in Errors(r, false);
    }
  }
}
