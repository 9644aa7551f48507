/**
 * PoolController::store: validate the creation form, optionally create a
 * custom rule setting, then create the pool, bring its status up to date and
 * attach the participants. `completeSelection` is Pools.Pool.CompleteSelection.
 */
module PoolCreation {
  import opened Wrappers
  import opened RuleSettings
  import RulesInput
  import opened Pools

  /** The form; None is a key absent, null, the empty string or not of the expected type. */
  datatype PoolRequest = PoolRequest(
    name: Option<string>,
    startDate: Option<Day>,
    endDate: Option<Day>,
    ruleSettingId: Option<int>,
    customRules: Option<RulesInput.RulesRequest>,
    userIds: Option<seq<int>>)

  /** The keys the validator reports errors under. */
  datatype PoolField =
    | NameField
    | StartDateField
    | EndDateField
    | RuleSettingIdField
    | CustomRulesField(error: RulesInput.RulesError)
    | UserIdsField
    | UserIdField(index: nat)

  const NameMaxLength: nat := 255
  const CustomSuffix: string := " - Règles personnalisées"

  /** `custom_rules` was sent and is not empty: the `required_with:custom_rules` rules apply. */
  predicate HasCustomRules(req: PoolRequest) {
    req.customRules.Some? && !RulesInput.IsEmptyRequest(req.customRules.value)
  }

  function CustomErrors(req: PoolRequest): (errs: set<PoolField>)
    ensures forall f :: f in errs ==> f.CustomRulesField?
    ensures forall e :: CustomRulesField(e) in errs <==>
      HasCustomRules(req) && e in RulesInput.Errors(req.customRules.value, true)
  {
    if HasCustomRules(req) then (set e | e in RulesInput.Errors(req.customRules.value, true) :: CustomRulesField(e)) else {}
  }

  function UserIdErrors(ids: seq<int>, knownUsers: set<int>): (errs: set<PoolField>)
    ensures forall f :: f in errs ==> f.UserIdField?
    ensures forall i: nat :: UserIdField(i) in errs <==> i < |ids| && ids[i] !in knownUsers
  {
    set i: nat | i < |ids| && ids[i] !in knownUsers :: UserIdField(i)
  }

  /** The errors of the fields that hold a single value. */
  function FieldErrors(req: PoolRequest, settingIds: set<int>): (errs: set<PoolField>)
    ensures forall f :: f in errs ==> f in {NameField, StartDateField, EndDateField, RuleSettingIdField, UserIdsField}
    ensures NameField in errs <==> !(req.name.Some? && req.name.value != "" && |req.name.value| <= NameMaxLength)
    ensures StartDateField in errs <==> req.startDate.None?
    ensures EndDateField in errs <==> req.endDate.None? || (req.startDate.Some? && req.endDate.value <= req.startDate.value)
    ensures RuleSettingIdField in errs <==> req.ruleSettingId.Some? && req.ruleSettingId.value !in settingIds
    ensures UserIdsField in errs <==> req.userIds.None? || |req.userIds.value| == 0
  {
    (if req.name.Some? && req.name.value != "" && |req.name.value| <= NameMaxLength then {} else {NameField})
    + (if req.startDate.None? then {StartDateField} else {})
    + (if req.endDate.None? || (req.startDate.Some? && req.endDate.value <= req.startDate.value) then {EndDateField} else {})
    + (if req.ruleSettingId.Some? && req.ruleSettingId.value !in settingIds then {RuleSettingIdField} else {})
    + (if req.userIds.None? || |req.userIds.value| == 0 then {UserIdsField} else {})
  }

  /**
   * Every validation error of the form, given the existing rule-setting ids
   * and user ids. `after:start_date` compares against the start date's
   * time stamp, which is null when that date is missing or unparseable, and
   * any time stamp is greater than null: then only `start_date` fails.
   */
  function Errors(req: PoolRequest, settingIds: set<int>, knownUsers: set<int>): (errs: set<PoolField>)
    ensures NameField in errs <==> !(req.name.Some? && req.name.value != "" && |req.name.value| <= NameMaxLength)
    ensures StartDateField in errs <==> req.startDate.None?
    ensures EndDateField in errs <==> req.endDate.None? || (req.startDate.Some? && req.endDate.value <= req.startDate.value)
    ensures RuleSettingIdField in errs <==> req.ruleSettingId.Some? && req.ruleSettingId.value !in settingIds
    ensures forall e :: CustomRulesField(e) in errs <==>
      HasCustomRules(req) && e in RulesInput.Errors(req.customRules.value, true)
    ensures UserIdsField in errs <==> req.userIds.None? || |req.userIds.value| == 0
    ensures forall i: nat :: UserIdField(i) in errs <==>
      req.userIds.Some? && i < |req.userIds.value| && req.userIds.value[i] !in knownUsers
  {
    FieldErrors(req, settingIds) + CustomErrors(req) + UserIdErrors(req.userIds.GetOr([]), knownUsers)
  }

  /** A missing start date is reported alone: `after:start_date` then passes for a given end date. */
  lemma MissingStartDateReportedAlone(endDate: Day, userId: int)
    ensures Errors(PoolRequest(Some("Pool"), None, Some(endDate), None, None, Some([userId])), {}, {userId})
            == {StartDateField}
  {
    var errs := Errors(PoolRequest(Some("Pool"), None, Some(endDate), None, None, Some([userId])), {}, {userId});
    assert forall f :: f in errs ==> f == StartDateField;
  }

  /** The setting created from custom rules: a stored custom setting named after the pool. */
  function CustomSetting(poolName: string, rules: RulesInput.RulesRequest): (rs: RuleSetting)
    requires RulesInput.Valid(rules, false)
    ensures rs.name == poolName + CustomSuffix && rs.templateType == Some("custom") && !rs.isDefault
    ensures rs.rules == RulesInput.ToBlob(rules)
  {
    RulesInput.StoredSetting(poolName + CustomSuffix, rules)
  }

  datatype StoreOutcome =
    | Rejected(errors: set<PoolField>)
    | MissingRuleSetting
    | Created(pool: Pool)

  /**
   * `store`. A form with any error is rejected with all of its errors and
   * nothing is written. Otherwise a non-empty `custom_rules` first creates
   * a custom setting that the pool then uses; without one, the pool uses
   * `rule_setting_id`, and when that is missing too the request ends with
   * the `rule_setting_id` error and nothing is written. A created pool is
   * owned by the requester, carries the status of `today` and has one
   * pivot row per listed id (a repeated id gives several), none of them
   * completed.
   */
  method Store(req: PoolRequest, requester: int, today: Day, poolId: int,
               settings: RuleSettingTable, knownUsers: set<int>) returns (out: StoreOutcome)
    requires settings.Valid()
    modifies settings
    ensures settings.Valid()
    ensures var errs := Errors(req, old(settings.settings).Keys, knownUsers);
      errs != {} ==> out == Rejected(errs)
    ensures out.MissingRuleSetting? <==>
      Errors(req, old(settings.settings).Keys, knownUsers) == {} && !HasCustomRules(req) && req.ruleSettingId.None?
    ensures Errors(req, old(settings.settings).Keys, knownUsers) == {} && (HasCustomRules(req) || req.ruleSettingId.Some?) ==>
      out.Created?
    ensures !out.Created? ==> settings.settings == old(settings.settings)
    ensures out.Created? ==>
      var p := out.pool;
      && fresh(p)
      && Errors(req, old(settings.settings).Keys, knownUsers) == {}
      && p.id == poolId && p.name == req.name.value && p.ownerId == requester
      && p.startDate == req.startDate.value < p.endDate == req.endDate.value
      && p.status == CalculateStatus(p.startDate, p.endDate, today)
      && p.members == Joined(req.userIds.value) && MemberIds(p.members) <= knownUsers && |p.members| >= 1
      && p.ruleSettingId in settings.settings
      && (HasCustomRules(req) ==>
            p.ruleSettingId !in old(settings.settings)
            && settings.settings == old(settings.settings)[p.ruleSettingId := CustomSetting(req.name.value, req.customRules.value)])
      && (!HasCustomRules(req) ==>
            p.ruleSettingId == req.ruleSettingId.value && settings.settings == old(settings.settings))
  {
    var errs := Errors(req, settings.settings.Keys, knownUsers);
    if errs != {} {
      return Rejected(errs);
    }
    AcceptedForm(req, settings.settings.Keys, knownUsers);
    var ruleSettingId := req.ruleSettingId;
    if HasCustomRules(req) {
      var id := settings.Create(CustomSetting(req.name.value, req.customRules.value));
      ruleSettingId := Some(id);
    }
    if ruleSettingId.None? || ruleSettingId.value == 0 {
      return MissingRuleSetting;
    }
    JoinedMembers(req.userIds.value);
    var pool := Open(poolId, req.name.value, req.startDate.value, req.endDate.value,
                     ruleSettingId.value, requester, today, req.userIds.value);
    out := Created(pool);
  }

  /** `Pool::create` in the selection phase, then `updateStatus()` and `users()->attach($ids)`. */
  method Open(poolId: int, name: string, startDate: Day, endDate: Day, ruleSettingId: int,
              owner: int, today: Day, ids: seq<int>) returns (pool: Pool)
    ensures fresh(pool)
    ensures pool.id == poolId && pool.name == name && pool.ownerId == owner && pool.ruleSettingId == ruleSettingId
    ensures pool.startDate == startDate && pool.endDate == endDate
    ensures pool.status == CalculateStatus(startDate, endDate, today)
    ensures pool.members == Joined(ids)
  {
    pool := new Pool(poolId, name, startDate, endDate, ruleSettingId, owner);
    pool.UpdateStatus(today);
    pool.Attach(ids);
  }

  /**
   * What a form without errors guarantees: a usable name, a start date
   * strictly before the end date, an existing setting when one is named,
   * at least one participant and only existing users, and custom rules
   * that are valid both with and without the position bounds.
   */
  lemma AcceptedForm(req: PoolRequest, settingIds: set<int>, knownUsers: set<int>)
    requires Errors(req, settingIds, knownUsers) == {}
    ensures req.name.Some? && req.name.value != "" && |req.name.value| <= NameMaxLength
    ensures req.startDate.Some? && req.endDate.Some? && req.startDate.value < req.endDate.value
    ensures req.ruleSettingId.Some? ==> req.ruleSettingId.value in settingIds
    ensures req.userIds.Some? && |req.userIds.value| >= 1
    ensures forall u :: u in req.userIds.value ==> u in knownUsers
    ensures HasCustomRules(req) ==>
      RulesInput.Valid(req.customRules.value, true) && RulesInput.Valid(req.customRules.value, false)
  {
    var errs := Errors(req, settingIds, knownUsers);
    var ids := req.userIds.value;
    forall u | u in ids ensures u in knownUsers {
      var i: nat :| i < |ids| && ids[i] == u;
      assert UserIdField(i) !in errs;
    }
    if HasCustomRules(req) {
      var rules := req.customRules.value;
      assert forall e :: e in RulesInput.Errors(rules, true) ==> CustomRulesField(e) in errs;
      RulesInput.BoundsOnlyAddErrors(rules);
    }
  }

  /**
   * An empty `custom_rules` array is the same as none: the rules that depend
   * on it are not checked, and no setting is created.
   */
  lemma EmptyCustomRulesAreIgnored(req: PoolRequest, settingIds: set<int>, knownUsers: set<int>)
    requires req.customRules == Some(RulesInput.RulesRequest(None, None, 0))
    ensures !HasCustomRules(req)
    ensures Errors(req, settingIds, knownUsers) == Errors(req.(customRules := None), settingIds, knownUsers)
  {
    var a := Errors(req, settingIds, knownUsers);
    var b := Errors(req.(customRules := None), settingIds, knownUsers);
    forall f ensures f in a <==> f in b {
      if f.UserIdField? {
      } else if f.CustomRulesField? {
      }
    }
  }
}
